/**
 * The pure helpers and decision rules of frontend/roulette.js: the suffix window
 * of `getLastEntries`, the avatar initials of `initialsFromName`, the fallback for
 * the `active` badge, and the mapping from a `/spin` reply to the result message.
 *
 * Upper-casing is ASCII only, and a character is one Unicode scalar value.
 */
module Roulette {
  import opened Options
  import opened State

  /** `MAX_DISPLAY`: how many history items the page shows. */
  const MaxDisplay: int := 5

  /** A JavaScript value that is either an array or anything else. */
  datatype JsValue<T> = JsArray(items: seq<T>) | NotArray

  /**
   * `getLastEntries(arr, n)`: `arr.slice(Math.max(0, arr.length - n))`, or `[]` for a
   * non-array. For an array it is the suffix of length min(n, |arr|), the whole
   * array when n >= |arr| and empty when n <= 0.
   */
  function GetLastEntries<T>(arr: JsValue<T>, n: int): (r: seq<T>)
    ensures arr.NotArray? ==> r == []
    ensures arr.JsArray? ==>
      |r| == (if n <= 0 then 0 else if n < |arr.items| then n else |arr.items|) &&
      r == arr.items[|arr.items| - |r|..]
    ensures arr.JsArray? && n >= |arr.items| ==> r == arr.items
    ensures n <= 0 ==> r == []
  {
    match arr
    case NotArray => []
    case JsArray(a) =>
      var start := if |a| - n > 0 then |a| - n else 0;
      // slice clamps a start past the end to the length
      if start >= |a| then [] else a[start..]
  }

  /** Taking the last n entries twice is taking them once. */
  lemma GetLastEntriesIdempotent<T>(a: seq<T>, n: int)
    ensures GetLastEntries(JsArray(GetLastEntries(JsArray(a), n)), n) == GetLastEntries(JsArray(a), n)
  {
  }

  // ---------------------------------------------------------------------------
  // initialsFromName

  /** The characters JavaScript's `\s` and `String.prototype.trim` treat as white space. */
  predicate IsSpace(c: char) {
    c == '\t' || c == '\n' || c == '\U{000B}' || c == '\U{000C}' || c == '\r' || c == ' ' ||
    c == '\U{00A0}' || c == '\U{1680}' || ('\U{2000}' <= c <= '\U{200A}') ||
    c == '\U{2028}' || c == '\U{2029}' || c == '\U{202F}' || c == '\U{205F}' ||
    c == '\U{3000}' || c == '\U{FEFF}'
  }

  predicate NoSpace(s: string) {
    forall i :: 0 <= i < |s| ==> !IsSpace(s[i])
  }

  predicate AllSpace(s: string) {
    forall i :: 0 <= i < |s| ==> IsSpace(s[i])
  }

  /** ASCII `toUpperCase` of one character. */
  function Upper(c: char): (u: char)
    ensures 'a' <= c <= 'z' ==> 'A' <= u <= 'Z' && u as int == c as int - 32
    ensures !('a' <= c <= 'z') ==> u == c
  {
    if 'a' <= c <= 'z' then (c as int - 32) as char else c
  }

  /** The string without its leading white space. */
  function TrimStart(s: string): (r: string)
    ensures |r| <= |s| && r == s[|s| - |r|..]
    ensures r == [] || !IsSpace(r[0])
    ensures AllSpace(s[..|s| - |r|])
  {
    if s != [] && IsSpace(s[0]) then
      var r := TrimStart(s[1..]);
      assert s[..|s| - |r|] == [s[0]] + s[1..][..|s| - 1 - |r|];
      r
    else s
  }

  /** The string without its trailing white space. */
  function TrimEnd(s: string): (r: string)
    ensures |r| <= |s| && r == s[..|r|]
    ensures r == [] || !IsSpace(r[|r| - 1])
    ensures AllSpace(s[|r|..])
  {
    if s != [] && IsSpace(s[|s| - 1]) then
      var r := TrimEnd(s[..|s| - 1]);
      assert s[|r|..] == s[..|s| - 1][|r|..] + [s[|s| - 1]];
      r
    else s
  }

  /**
   * `name.trim()`: a slice `s[i..i + |r|]` that neither starts nor ends with white
   * space, with only white space cut off on either side.
   */
  function Trim(s: string): (r: string)
    ensures r == [] || (!IsSpace(r[0]) && !IsSpace(r[|r| - 1]))
    ensures exists i :: 0 <= i <= |s| - |r| && r == s[i..i + |r|] && AllSpace(s[..i]) && AllSpace(s[i + |r|..])
  {
    var u := TrimStart(s);
    var r := TrimEnd(u);
    var i := |s| - |u|;
    assert AllSpace(s[..i]);
    assert r == s[i..i + |r|];
    assert s[i + |r|..] == u[|r|..];
    assert AllSpace(s[i + |r|..]);
    assert 0 <= i <= |s| - |r| && r == s[i..i + |r|] && AllSpace(s[..i]) && AllSpace(s[i + |r|..]);
    r
  }

  /**
   * `s.split(/\s+/)`: the pieces between maximal runs of white space. A leading or
   * trailing run yields an empty first or last piece, and `""` splits into `[""]`.
   */
  function SplitWs(s: string): (parts: seq<string>)
    ensures |parts| >= 1
    ensures forall k :: 0 <= k < |parts| ==> NoSpace(parts[k])
    ensures forall k :: 0 < k < |parts| - 1 ==> parts[k] != []
    ensures s != [] && !IsSpace(s[0]) ==> parts[0] != [] && parts[0][0] == s[0]
    ensures s == [] || IsSpace(s[0]) ==> parts[0] == []
    decreases |s|
  {
    if s == [] then [[]]
    else if IsSpace(s[0]) then [[]] + SplitWs(TrimStart(s[1..]))
    else
      var rest := SplitWs(s[1..]);
      [[s[0]] + rest[0]] + rest[1..]
  }

  /** `(w[0] || "").toUpperCase()`. */
  function FirstUpper(w: string): string {
    if w == [] then [] else [Upper(w[0])]
  }

  /** `initialsFromName(name)`; None stands for null or undefined. */
  function InitialsFromName(name: Option<string>): (r: string)
    ensures |r| <= 2
    ensures name.None? || name == Some("") ==> r == "??"
  {
    if name.None? || name.value == "" then "??"
    else
      var parts := SplitWs(Trim(name.value));
      FirstUpper(parts[0]) + (if |parts| > 1 && parts[1] != [] then FirstUpper(parts[1]) else [])
  }

  lemma {:induction false} TrimStartOfSpaces(lead: string, s: string)
    requires AllSpace(lead)
    requires s == [] || !IsSpace(s[0])
    ensures TrimStart(lead + s) == s
    decreases |lead|
  {
    if lead == [] {
      assert lead + s == s;
    } else {
      assert (lead + s)[1..] == lead[1..] + s;
      TrimStartOfSpaces(lead[1..], s);
    }
  }

  lemma {:induction false} TrimEndAfterWord(w: string, s: string)
    requires w != [] && !IsSpace(w[|w| - 1])
    ensures TrimEnd(w + s) == w + TrimEnd(s)
    decreases |s|
  {
    if s == [] {
      assert w + s == w;
    } else if IsSpace(s[|s| - 1]) {
      assert (w + s)[..|w + s| - 1] == w + s[..|s| - 1];
      TrimEndAfterWord(w, s[..|s| - 1]);
    } else {
      assert TrimEnd(s) == s;
    }
  }

  lemma TrimEndAllSpace(s: string)
    requires AllSpace(s)
    ensures TrimEnd(s) == []
  {
  }

  /** A word followed by nothing or by white space splits off as the first piece. */
  lemma {:induction false} SplitAfterWord(w: string, s: string)
    requires NoSpace(w)
    requires s == [] || IsSpace(s[0])
    ensures s == [] ==> SplitWs(w + s) == [w]
    ensures s != [] ==> SplitWs(w + s) == [w] + SplitWs(TrimStart(s[1..]))
    decreases |w|
  {
    if w == [] {
      assert w + s == s;
    } else {
      assert (w + s)[1..] == w[1..] + s;
      SplitAfterWord(w[1..], s);
      assert [w[0]] + w[1..] == w;
    }
  }

  /** Trimming a padded text that starts and ends with non-space keeps the text. */
  lemma TrimPadded(lead: string, x: string, tail: string)
    requires AllSpace(lead)
    requires x != [] && !IsSpace(x[0]) && !IsSpace(x[|x| - 1])
    ensures Trim(lead + x + tail) == x + TrimEnd(tail)
  {
    assert lead + x + tail == lead + (x + tail);
    TrimStartOfSpaces(lead, x + tail);
    TrimEndAfterWord(x, tail);
  }

  /** Initials are read off the pieces of the trimmed name. */
  lemma InitialsOfPieces(name: string, trimmed: string, a: string, b: Option<string>)
    requires name != [] && Trim(name) == trimmed
    requires SplitWs(trimmed)[0] == a
    requires b.None? ==> |SplitWs(trimmed)| == 1
    requires b.Some? ==> |SplitWs(trimmed)| > 1 && SplitWs(trimmed)[1] == b.value && b.value != []
    requires a != []
    ensures b.None? ==> InitialsFromName(Some(name)) == [Upper(a[0])]
    ensures b.Some? ==> InitialsFromName(Some(name)) == [Upper(a[0]), Upper(b.value[0])]
  {
    var parts := SplitWs(trimmed);
    assert InitialsFromName(Some(name))
      == FirstUpper(parts[0]) + (if |parts| > 1 && parts[1] != [] then FirstUpper(parts[1]) else []);
  }

  /** A name with no word at all, only white space, has empty initials (not "??"). */
  lemma BlankNameInitials(name: string)
    requires name != [] && AllSpace(name)
    ensures InitialsFromName(Some(name)) == ""
  {
  }

  /** A single word, however padded, gives its upper-cased first letter. */
  lemma OneWordInitials(lead: string, w: string, tail: string)
    requires AllSpace(lead) && AllSpace(tail)
    requires w != [] && NoSpace(w)
    ensures InitialsFromName(Some(lead + w + tail)) == [Upper(w[0])]
  {
    TrimPadded(lead, w, tail);
    TrimEndAllSpace(tail);
    assert w + [] == w;
    SplitAfterWord(w, []);
    InitialsOfPieces(lead + w + tail, w, w, None);
  }

  lemma SplitTwoWords(a: string, sep: string, b: string, t: string)
    requires sep != [] && AllSpace(sep)
    requires a != [] && NoSpace(a) && b != [] && NoSpace(b)
    requires t == [] || IsSpace(t[0])
    ensures |SplitWs(a + sep + b + t)| > 1
    ensures SplitWs(a + sep + b + t)[0] == a && SplitWs(a + sep + b + t)[1] == b
  {
    var bt := b + t;
    var rest := sep + bt;
    assert a + sep + b + t == a + rest;
    SplitAfterWord(a, rest);
    SkipSeparator(sep, bt);
    var tailParts := SplitWs(bt);
    SplitAfterWord(b, t);
    assert tailParts[0] == b;
    assert SplitWs(a + rest) == [a] + tailParts;
  }

  lemma SkipSeparator(sep: string, bt: string)
    requires sep != [] && AllSpace(sep)
    requires bt != [] && !IsSpace(bt[0])
    ensures (sep + bt)[0] == sep[0]
    ensures TrimStart((sep + bt)[1..]) == bt
  {
    assert (sep + bt)[1..] == sep[1..] + bt;
    assert AllSpace(sep[1..]) by {
      forall i | 0 <= i < |sep[1..]| ensures IsSpace(sep[1..][i]) {
        assert sep[1..][i] == sep[i + 1];
      }
    }
    TrimStartOfSpaces(sep[1..], bt);
  }

  lemma TrimTwoWords(lead: string, a: string, sep: string, b: string, tail: string)
    requires AllSpace(lead)
    requires a != [] && NoSpace(a) && b != [] && NoSpace(b)
    requires tail == [] || IsSpace(tail[0])
    ensures Trim(lead + a + sep + b + tail) == a + sep + b + TrimEnd(tail)
    ensures TrimEnd(tail) == [] || IsSpace(TrimEnd(tail)[0])
  {
    var x := a + sep + b;
    assert lead + a + sep + b + tail == lead + x + tail;
    assert x[0] == a[0] && x[|x| - 1] == b[|b| - 1];
    TrimPadded(lead, x, tail);
    var t := TrimEnd(tail);
    if t != [] {
      assert t[0] == tail[0];
    }
  }

  /**
   * The initials are the upper-cased first letters of the first two words of the
   * trimmed name; whatever follows the second word is ignored.
   */
  lemma TwoWordInitials(lead: string, a: string, sep: string, b: string, tail: string)
    requires AllSpace(lead) && sep != [] && AllSpace(sep)
    requires a != [] && NoSpace(a) && b != [] && NoSpace(b)
    requires tail == [] || IsSpace(tail[0])
    ensures InitialsFromName(Some(lead + a + sep + b + tail)) == [Upper(a[0]), Upper(b[0])]
  {
    var name := lead + a + sep + b + tail;
    var t := TrimEnd(tail);
    TrimTwoWords(lead, a, sep, b, tail);
    var trimmed := a + sep + b + t;
    SplitTwoWords(a, sep, b, t);
    InitialsOfPieces(name, trimmed, a, Some(b));
  }

  // ---------------------------------------------------------------------------
  // The badge and the result message

  /**
   * The `active` flag a history item is shown with: the item's own `active` when
   * defined (None stands for undefined); otherwise true exactly when `ends_at`
   * exists and lies after `now`. An unparsable `ends_at` makes an invalid Date,
   * whose comparison with `now` is false.
   */
  function DisplayActive(active: Option<bool>, endsAt: EndsAt, now: int): (shown: bool)
    ensures active.Some? ==> shown == active.value
    ensures active.None? ==> (shown <==> endsAt.At? && now < endsAt.t)
  {
    match active
    case Some(b) => b
    case None =>
      match endsAt
      case Missing => false
      case Unparsable => false
      case At(t) => now < t
  }

  /** What the page receives from `/spin`: a failed request or a JSON body. */
  datatype Reply = Failed | Json(status: Option<string>, member: Option<string>)

  /** The CSS class added to the result element. */
  datatype Tone = Success | Note | Error

  datatype Message = Message(tone: Tone, text: string)

  /**
   * The result message: `ok` is a success naming the member ("Inconnu" when the
   * name is missing or empty), `cooldown` a note, and any other status or a failed
   * request an error.
   */
  function ResultMessage(reply: Reply): (m: Message)
    ensures m.tone == Success <==> reply.Json? && reply.status == Some("ok")
    ensures m.tone == Note <==> reply.Json? && reply.status == Some("cooldown")
    ensures m.tone == Success && reply.member.Some? && reply.member.value != "" ==>
      m.text == "\U{1F480} " + reply.member.value + " a été timeout"
    ensures m.tone == Success && (reply.member.None? || reply.member == Some("")) ==>
      m.text == "\U{1F480} Inconnu a été timeout"
  {
    match reply
    case Failed => Message(Error, "⚠️ Erreur serveur")
    case Json(status, member) =>
      if status == Some("ok") then
        var name := if member.Some? && member.value != "" then member.value else "Inconnu";
        Message(Success, "\U{1F480} " + name + " a été timeout")
      else if status == Some("cooldown") then
        Message(Note, "⏳ Roulette déjà utilisée cette heure")
      else
        Message(Error, "❌ Aucun membre éligible")
  }
}

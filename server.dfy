/**
 * The spin orchestration and history views of backend/main.py.
 *
 * The Discord client, the HTTP routing and the clock are not part of this model:
 * the guild snapshot (None when the bot does not have the guild), the request
 * headers, the `ALLOWED_ORIGIN` setting and the current time are parameters. The random pick is a nondeterministic choice among
 * the candidates, and the asynchronous `victim.timeout(...)` task is returned as a
 * requested Restriction instead of being run.
 */
module Server {
  import opened Options
  import opened Data
  import opened State

  /** Duration of the timeout given to the picked member, in minutes. */
  const TimeoutMinutes: int := 2
  /** `status` shows this many of the latest history records. */
  const StatusWindow: int := 5

  /** A requested `member.timeout(timedelta(minutes = minutes))`. */
  datatype Restriction = Restriction(member: Member, minutes: int)

  /** The `origin` and `referer` headers of a request, each possibly absent. */
  datatype Request = Request(origin: Option<string>, referer: Option<string>)

  /**
   * What `/spin` answers: a 403 error, a 500 error (the guild is not available, so
   * `guild.members` raises), or a `status` of cooldown, empty or ok.
   */
  datatype SpinResponse = Forbidden | ServerError | CooldownActive | Empty | Spun(member: string)

  /**
   * How `timeout_random()` ends: it raises because `bot.get_guild` gave no guild,
   * returns None because nobody is eligible, or picks a winner.
   */
  datatype Draw = GuildMissing | Nobody | Winner(restriction: Restriction)

  /** One item of `/history`: the stored record plus the computed `active` flag. */
  datatype HistoryItem = HistoryItem(member: string, time: int, endsAt: EndsAt, active: bool)

  /** What `/status` answers, without the online count. */
  datatype StatusReport = StatusReport(canSpin: bool, history: seq<Entry>)

  /** `origin or referer`: an empty `origin` header falls through to `referer`. */
  function RequestOrigin(req: Request): (o: Option<string>)
    ensures req.origin.Some? && req.origin.value != "" ==> o == req.origin
    ensures !(req.origin.Some? && req.origin.value != "") ==> o == req.referer
  {
    if req.origin.Some? && req.origin.value != "" then req.origin else req.referer
  }

  /**
   * The origin check of `spin`: with `ALLOWED_ORIGIN` unset or empty everything
   * passes; otherwise the request origin must be present, non-empty and start with it.
   */
  function OriginAccepted(allowedOrigin: string, req: Request): (ok: bool)
    ensures allowedOrigin == "" ==> ok
    ensures allowedOrigin != "" ==> (ok <==> RequestOrigin(req).Some? && allowedOrigin <= RequestOrigin(req).value)
    ensures allowedOrigin != "" && req.origin.None? && req.referer.None? ==> !ok
  {
    allowedOrigin == "" ||
    (RequestOrigin(req).Some? && RequestOrigin(req).value != "" && allowedOrigin <= RequestOrigin(req).value)
  }

  /**
   * `timeout_random()` with the guild `bot.get_guild` gave (None when the bot does
   * not have it): picks one candidate, requests its two-minute timeout and records
   * the spin; with no candidate it does nothing and answers None; with no guild it
   * raises before touching the state.
   */
  method TimeoutRandom(st: SpinState, guild: Option<Guild>, now: int) returns (draw: Draw)
    modifies st
    ensures guild.None? ==> draw == GuildMissing && unchanged(st)
    ensures guild.Some? && CandidateMembers(guild.value) == [] ==> draw == Nobody && unchanged(st)
    ensures guild.Some? && CandidateMembers(guild.value) != [] ==>
      draw.Winner? &&
      draw.restriction.member in CandidateMembers(guild.value) &&
      draw.restriction.minutes == TimeoutMinutes &&
      st.Valid() &&
      st.lastSpin == Some(now) &&
      st.history == old(st.history) + [SpinEntry(draw.restriction.member.displayName, now, TimeoutMinutes)]
  {
    if guild.None? {
      return GuildMissing;
    }
    var candidates := CandidateMembers(guild.value);
    if candidates == [] {
      return Nobody;
    }
    var i :| 0 <= i < |candidates|;
    var victim := candidates[i];
    st.RegisterSpin(victim.displayName, now, TimeoutMinutes);
    draw := Winner(Restriction(victim, TimeoutMinutes));
  }

  /**
   * `spin(request)`: the origin check first, then the cooldown, then the pick.
   * A winner whose display name is empty is answered as `empty`, as the source's
   * `if not name` does, although the spin has been recorded.
   */
  method Spin(st: SpinState, allowedOrigin: string, req: Request, guild: Option<Guild>, now: int)
    returns (resp: SpinResponse, restriction: Option<Restriction>)
    requires st.Valid()
    modifies st
    ensures st.Valid()
    ensures !OriginAccepted(allowedOrigin, req) ==> resp == Forbidden
    ensures OriginAccepted(allowedOrigin, req) && !CooldownOver(old(st.lastSpin), now) ==> resp == CooldownActive
    ensures restriction.None? <==>
      !OriginAccepted(allowedOrigin, req) || !CooldownOver(old(st.lastSpin), now) ||
      guild.None? || CandidateMembers(guild.value) == []
    ensures restriction.None? ==> unchanged(st)
    ensures OriginAccepted(allowedOrigin, req) && CooldownOver(old(st.lastSpin), now) ==>
      (guild.None? ==> resp == ServerError) &&
      (guild.Some? && CandidateMembers(guild.value) == [] ==> resp == Empty)
    ensures restriction.Some? ==>
      var winner := restriction.value.member;
      guild.Some? &&
      winner in CandidateMembers(guild.value) &&
      restriction.value.minutes == TimeoutMinutes &&
      st.lastSpin == Some(now) &&
      st.history == old(st.history) + [SpinEntry(winner.displayName, now, TimeoutMinutes)] &&
      resp == (if winner.displayName == "" then Empty else Spun(winner.displayName))
    ensures SpacedByCooldown(old(st.history)) ==> SpacedByCooldown(st.history)
  {
    if !OriginAccepted(allowedOrigin, req) {
      return Forbidden, None;
    }
    if !st.CanSpin(now) {
      return CooldownActive, None;
    }
    var draw := TimeoutRandom(st, guild, now);
    match draw {
      case GuildMissing =>
        resp, restriction := ServerError, None;
      case Nobody =>
        resp, restriction := Empty, None;
      case Winner(r) =>
        restriction := Some(r);
        resp := if r.member.displayName == "" then Empty else Spun(r.member.displayName);
    }
  }

  /** `history[-5:]`: the last five records, or all of them when there are fewer. */
  function Recent(h: seq<Entry>): (r: seq<Entry>)
    ensures |r| == if |h| < StatusWindow then |h| else StatusWindow
    ensures r == h[|h| - |r|..]
  {
    if |h| <= StatusWindow then h else h[|h| - StatusWindow..]
  }

  /** `status()` at time `now`, without the online count. */
  function Status(st: SpinState, now: int): (r: StatusReport)
    reads st
    ensures r.canSpin <==> st.lastSpin.None? || now - st.lastSpin.value >= Cooldown
    ensures |r.history| <= StatusWindow && r.history == Recent(st.history)
  {
    StatusReport(st.CanSpin(now), Recent(st.history))
  }

  /**
   * The item `get_history` builds from one record at time `now`: `active` is true
   * exactly when `ends_at` is present, parses, and lies after `now`.
   */
  function Enrich(e: Entry, now: int): (item: HistoryItem)
    ensures item.member == e.member && item.time == e.time && item.endsAt == e.endsAt
    ensures item.active <==> e.endsAt.At? && now < e.endsAt.t
  {
    match e.endsAt
    case Missing => HistoryItem(e.member, e.time, e.endsAt, false)      // `if ends_at_iso` is falsy
    case Unparsable => HistoryItem(e.member, e.time, e.endsAt, false)   // `fromisoformat` raised
    case At(t) => HistoryItem(e.member, e.time, e.endsAt, now < t)
  }

  /** `get_history()` at time `now`: every record enriched, in order. */
  method GetHistory(st: SpinState, now: int) returns (items: seq<HistoryItem>)
    ensures |items| == |st.history|
    ensures forall i :: 0 <= i < |items| ==> items[i] == Enrich(st.history[i], now)
  {
    items := [];
    var k := 0;
    while k < |st.history|
      invariant 0 <= k <= |st.history|
      invariant |items| == k
      invariant forall i :: 0 <= i < k ==> items[i] == Enrich(st.history[i], now)
    {
      var entry := st.history[k];
      var active := false;
      match entry.endsAt {
        case Missing =>
        case Unparsable =>
        case At(t) => active := now < t;
      }
      items := items + [HistoryItem(entry.member, entry.time, entry.endsAt, active)];
      k := k + 1;
    }
  }

  /**
   * Two requests one second apart on a fresh state: the first spins, the second
   * meets the cooldown, and a third exactly one hour after the first spins again.
   */
  method CooldownScenario(allowedOrigin: string, req: Request, guild: Option<Guild>, t: int)
    returns (first: SpinResponse, second: SpinResponse, third: SpinResponse)
    requires OriginAccepted(allowedOrigin, req)
    requires guild.Some? && CandidateMembers(guild.value) != []
    requires forall m :: m in CandidateMembers(guild.value) ==> m.displayName != ""
    ensures first.Spun? && second == CooldownActive && third.Spun?
  {
    var st := new SpinState();
    var r;
    first, r := Spin(st, allowedOrigin, req, guild, t);
    second, r := Spin(st, allowedOrigin, req, guild, t + Second);
    third, r := Spin(st, allowedOrigin, req, guild, t + Cooldown);
  }
}

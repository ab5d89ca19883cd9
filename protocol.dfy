/**
 * How the page in frontend/roulette.js reads what backend/main.py sends: the
 * `/spin` reply, the `/history` items and the five-record window.
 */
module Protocol {
  import opened Options
  import opened State
  import Server
  import opened Roulette

  /**
   * The reply the page receives for a `/spin` answer: the 403 and 500 errors make
   * the page treat the request as failed; the other answers are the JSON bodies
   * `{status}` and `{status: "ok", member}`.
   */
  function Transmit(resp: Server.SpinResponse): (reply: Reply)
    ensures reply.Failed? <==> resp.Forbidden? || resp.ServerError?
    ensures reply.Json? ==> reply.status.Some?
    ensures resp.Spun? ==> reply == Json(Some("ok"), Some(resp.member))
  {
    match resp
    case Forbidden => Failed
    case ServerError => Failed
    case CooldownActive => Json(Some("cooldown"), None)
    case Empty => Json(Some("empty"), None)
    case Spun(member) => Json(Some("ok"), Some(member))
  }

  /**
   * Each `/spin` outcome gets its own message class: a spin is a success naming the
   * winner, the cooldown a note, and a refused origin, a server error or an empty
   * guild an error.
   */
  lemma SpinOutcomeMessage(resp: Server.SpinResponse)
    requires resp.Spun? ==> resp.member != ""
    ensures var m := ResultMessage(Transmit(resp));
      (m.tone == Success <==> resp.Spun?) &&
      (m.tone == Note <==> resp.CooldownActive?) &&
      (m.tone == Error <==> resp.Forbidden? || resp.ServerError? || resp.Empty?) &&
      (resp.Forbidden? || resp.ServerError? ==> m.text == "⚠️ Erreur serveur") &&
      (resp.Spun? ==> m.text == "\U{1F480} " + resp.member + " a été timeout")
  {
  }

  /** The page's five-item window and the server's `history[-5:]` are the same records. */
  lemma StatusWindowMatchesPage(h: seq<Entry>)
    ensures Server.Recent(h) == GetLastEntries(JsArray(h), MaxDisplay)
  {
  }

  /**
   * For every stored record, the badge the page shows from the `active` flag the
   * server computed at `now` is the one the page's own fallback rule gives at `now`.
   */
  lemma BadgeAgreesWithServer(e: Entry, now: int)
    ensures var item := Server.Enrich(e, now);
      DisplayActive(Some(item.active), item.endsAt, now) == DisplayActive(None, e.endsAt, now)
  {
  }
}

# Skyroulette spin core, modelled in Dafny

Skyroulette is a Discord "roulette": a web page has a button that picks one eligible
guild member at random, gives them a two-minute timeout, and records the spin in a
shared history. Spins are rate-limited by a fixed one-hour cooldown. This project
models the parts of that system that hold its logic and proves what they promise:

- `data.dfy`, module `Data` (backend/data.py): guild members as records of flags and
  the two filters, `candidate_members` and `online_members`, as order-preserving
  filters with soundness, completeness and ordering lemmas.
- `state.dfy`, module `State` (backend/state.py): the module globals `last_spin` and
  `history` as the fields of a `SpinState` object, `can_spin` and `register_spin`,
  and the invariants of the history (the last spin is the latest record; histories
  built by spins are spaced by the cooldown, hence chronological).
- `server.dfy`, module `Server` (backend/main.py): `timeout_random`, the decision
  order of `spin`, the `active` enrichment of `get_history` and the `history[-5:]`
  window of `status`.
- `roulette.dfy`, module `Roulette` (frontend/roulette.js): `getLastEntries`,
  `initialsFromName` (trim, split on white space, upper-case), the fallback rule for
  the `active` badge and the mapping from a `/spin` reply to the result message.
- `protocol.dfy`, module `Protocol`: how the page reads the server's answers.
- `options.dfy`, module `Options`: the optional value.

Time is an integer count of microseconds (the resolution of Python's `datetime`),
passed in as `now` instead of being read from the clock. A stored `ends_at` is
`Missing` (absent or empty), `Unparsable`, or `At(t)`. The random pick is a
nondeterministic choice among the candidates, and the timeout the bot would apply
is returned as a requested `Restriction` value.

The code has a fixed one-hour cooldown (backend/state.py:12) and an in-memory
history (backend/state.py:5). It has no happy hour, persistence, member ids,
leaderboard or lock, and neither does the model.

`bot.get_guild` gives None while the bot does not have the guild; `timeout_random`
then raises on `guild.members` and `/spin` answers 500 without changing the state.
The model takes the guild as an optional value and answers `ServerError` there.

## Model

| member | source | states |
|---|---|---|
| `Data.CandidateMembers` | backend/data.py:5-16 | every returned member belongs to the guild and is not a bot, not offline, not the owner and not an administrator |
| `Data.CandidateMembersComplete` | backend/data.py:6-14 | every guild member meeting the four conditions is returned |
| `Data.CandidateMembersInOrder` | backend/data.py:6-14 | the result is a subsequence of `guild.members`: order is kept |
| `Data.NoCandidates` | backend/data.py:6-16 | the result is empty exactly when no guild member qualifies; emptiness is an ordinary answer |
| `Data.OnlineMembers` | backend/data.py:19-28 | every returned member belongs to the guild, is not a bot and is not offline |
| `Data.OnlineMembersComplete` | backend/data.py:20-26 | every non-bot, non-offline guild member is returned |
| `Data.OnlineMembersInOrder` | backend/data.py:20-26 | the online members keep the guild's order |
| `Data.CandidateMembersCount` | backend/data.py:6-14 | each member value occurs in the result as often as in the guild when it is a candidate, and never otherwise (exact even with repeated members) |
| `Data.OnlineMembersCount` | backend/data.py:20-26 | each member value occurs in the online members as often as in the guild when online, and never otherwise |
| `Data.CandidatesAreOnline` | backend/data.py:5-28 | the candidates are a subsequence of the online members, so every candidate is online |
| `State.CooldownOver` | backend/state.py:8-12 | never spun: allowed; otherwise allowed iff `now` is at least one hour after the last spin; never allowed at the instant of the last spin |
| `State.SpinState.CanSpin` | backend/state.py:8-12 | allowed when never spun; in a valid state, allowed iff the history is empty or its latest record is at least one hour old |
| `State.SpinEntry` | backend/state.py:18-22 | the record has the member's name, `time == now` and `ends_at == now + minutes`; it ends after it starts when `minutes > 0` |
| `State.SpinState.constructor` | backend/state.py:3-5 | the initial state has never spun and has an empty history |
| `State.SpinState.RegisterSpin` | backend/state.py:15-23 | `last_spin` becomes `now`, exactly one record is appended and earlier ones are kept, spinning is then allowed exactly from `now` + 1 h, and a chronological history stays chronological when `now` is not earlier than its last record |
| `State.NeverSpunMaySpin` | backend/state.py:10-11 | with no previous spin, `can_spin` holds at any time |
| `State.CooldownWindow` | backend/state.py:12 | after a spin at `last`, `can_spin` holds iff at least 3600 s have elapsed; exactly one hour later it holds |
| `State.AppendKeepsChronological` | backend/state.py:17-23 | appending a record no earlier than the last one keeps the history ordered by `time` |
| `State.SpacedEntriesFarApart` | backend/main.py:80-83 | in a history whose neighbours are an hour apart, any two records are an hour apart |
| `State.SpacedIsChronological` | backend/main.py:80-83 | such a history is ordered by `time` |
| `State.AtMostOneSpinPerWindow` | backend/main.py:80-83 | such a history holds at most one spin in any one-hour window |
| `Server.RequestOrigin` | backend/main.py:74 | a non-empty `origin` header is used; otherwise the `referer` header, present or not |
| `Server.OriginAccepted` | backend/main.py:75-78 | with `ALLOWED_ORIGIN` empty every request passes; otherwise it passes iff the request origin is present and starts with `ALLOWED_ORIGIN`; a request with neither header is refused |
| `Server.TimeoutRandom` | backend/main.py:38-61 | with no guild: fails and leaves the state alone; with no candidate: answers None and leaves the state alone; otherwise the winner is a candidate, a 2-minute timeout is requested for it, and exactly one 2-minute record with its display name is appended |
| `Server.Spin` | backend/main.py:70-87 | origin check first (403, no state change), then the cooldown (`cooldown`, no change), then a missing guild (500, no change) or no candidate (`empty`, no change), else the recorded winner's name with `ok`; keeps the state invariant and the one-hour spacing of the history |
| `Server.Recent` | backend/main.py:95 | the last min(5, \|history\|) records of the history |
| `Server.Status` | backend/main.py:90-96 | `can_spin` at `now` and the last five records |
| `Server.Enrich` | backend/main.py:106-119 | the item copies `member`, `time` and `ends_at`; `active` iff `ends_at` is present, parses and lies after `now` |
| `Server.GetHistory` | backend/main.py:101-120 | one item per record, in the same order, each the enrichment of its record |
| `Server.CooldownScenario` | backend/main.py:80-87 | on a fresh state, a spin succeeds, a spin one second later meets the cooldown, and a spin one hour after the first succeeds |
| `Roulette.GetLastEntries` | frontend/roulette.js:53-56 | a non-array gives `[]`; for an array, the suffix of length min(n, \|arr\|); the whole array when n ≥ \|arr\|, empty when n ≤ 0 |
| `Roulette.GetLastEntriesIdempotent` | frontend/roulette.js:53-56 | windowing an already windowed list changes nothing |
| `Roulette.Upper` | frontend/roulette.js:35 | ASCII lower-case letters become upper-case; every other character is kept |
| `Roulette.TrimStart` | frontend/roulette.js:34 | the result is a suffix not starting with white space, and only white space was removed |
| `Roulette.TrimEnd` | frontend/roulette.js:34 | the result is a prefix not ending with white space, and only white space was removed |
| `Roulette.Trim` | frontend/roulette.js:34 | the result is a slice of the name that neither starts nor ends with white space, with only white space cut off on either side |
| `Roulette.SplitWs` | frontend/roulette.js:34 | `split(/\s+/)`: at least one piece, no piece holds white space, every inner piece is non-empty, and the first piece is empty exactly when the text is empty or starts with white space |
| `Roulette.SplitAfterWord` | frontend/roulette.js:34 | splitting on white-space runs cuts a leading word off as the first piece |
| `Roulette.InitialsFromName` | frontend/roulette.js:32-36 | a missing or empty name gives "??"; the result never has more than two characters |
| `Roulette.BlankNameInitials` | frontend/roulette.js:33-35 | a non-empty name of white space only gives "" |
| `Roulette.OneWordInitials` | frontend/roulette.js:34-35 | a single padded word gives its upper-cased first letter |
| `Roulette.TwoWordInitials` | frontend/roulette.js:34-35 | the upper-cased first letters of the first two words of the trimmed name; later words are ignored |
| `Roulette.DisplayActive` | frontend/roulette.js:70-71 | the item's `active` when defined; otherwise true iff `ends_at` exists, parses and lies after now |
| `Roulette.ResultMessage` | frontend/roulette.js:137-159 | `ok` is the success class naming the member, or "Inconnu" when the name is missing; `cooldown` is the note class; everything else is the error class |
| `Protocol.Transmit` | backend/main.py:76-87 | the 403 and 500 answers are the failed requests; `ok` answers carry the member name |
| `Protocol.SpinOutcomeMessage` | frontend/roulette.js:143-159 | a spin shows success naming the winner, the cooldown a note, a refused origin, a server error or an empty guild an error ("Erreur serveur" for the first two) |
| `Protocol.StatusWindowMatchesPage` | backend/main.py:95 | the server's `history[-5:]` equals the page's `getLastEntries(history, 5)` |
| `Protocol.BadgeAgreesWithServer` | frontend/roulette.js:70-71 | for every stored record, the badge from the `active` flag the server computed equals the page's fallback rule at the same time |

## Left out

- The Discord client, its intents and the bot thread (backend/main.py:17-21, 123-127): the guild is a snapshot parameter.
- `victim.timeout(...)` and the task that runs it (backend/main.py:56-58): the model only returns the requested restriction; whether it succeeds is not modelled.
- Randomness (`random.choice`, and the wheel's `Math.random` angles in frontend/roulette.js:124-127): the pick is a nondeterministic choice; the wheel animation is floating point and not modelled.
- Clocks (`datetime.utcnow`, `Date.now`): `now` is a parameter. `spin` reads the clock twice (in `can_spin` and in `register_spin`); the model uses one `now` per request.
- ISO-8601 formatting and parsing (`isoformat`, `fromisoformat`, `new Date`, `Intl.DateTimeFormat`): timestamps are integers, and `ends_at` says whether it parsed. The page parses the server's zone-less timestamps as local time and to the millisecond; the model assumes both sides read the same instant.
- FastAPI routing, static files, `/` and `/config` (backend/main.py:22-32, 64-67), and backend/security.py (a header equality check).
- `state.online_members` and the `online` count of `/status` (backend/state.py:3, backend/main.py:93): nothing in the code fills that set.
- Concurrency between the bot thread and request handlers: the code has no lock, and the model runs one request at a time.
- DOM rendering, `fetch`, `localStorage`, the click handlers, `loadHistory`, `renderHistory` and the `setTimeout` chains of frontend/roulette.js; only the pure helpers and decision rules are modelled.
- Roulette.Upper: upper-cases ASCII letters only, where JavaScript's `toUpperCase` also maps other scripts (and may change the length, as for "ß").
- Roulette.InitialsFromName: takes a character to be a Unicode scalar value, where JavaScript's `[0]` takes a UTF-16 code unit (the two differ for characters outside the Basic Multilingual Plane).
- Roulette.GetLastEntries: `n` is an integer; non-integer or non-number `n` is not modelled.

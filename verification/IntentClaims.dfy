/** Session intents issued by phones, listed, cleaned and consumed by sidecars, one database call per step
    (deploy/trtc-sign/signing.js). */
module IntentClaims {
  import opened Outcomes
  import opened JsText

  datatype Config = Config(roomPrefix: Text, freshMs: nat)

  /** Who consumed an intent, and when. */
  datatype Claim = Claim(user: Text, at: nat)

  datatype Intent = Intent(session: Text, ts: nat, consumed: bool, claim: Option<Claim>)

  /** Where a call of listPending or consume has got to; `taken` is the session of the intent the update
      consumed. */
  datatype Phase =
    | Cleaning(stale: set<Text>, at: nat)
    | Took(device: Text, taken: Text)
    | Got(device: Text, taken: Text, session: Text)
    | Nothing

  datatype State = State(intents: map<Text, Intent>, clients: map<nat, Phase>, clock: nat)

  datatype Event =
    | Issue(device: Text, session: Text, now: nat)
    | List(client: nat, seen: set<Text>, now: nat)
    | Remove(client: nat, device: Text, now: nat)
    | Consume(client: nat, device: Text, user: Text, now: nat)
    | ReadBack(client: nat, readable: bool, now: nat)

  function Start(clock: nat): State {
    State(map[], map[], clock)
  }

  function Room(cfg: Config, device: Text): Text {
    cfg.roomPrefix + device
  }

  predicate Fresh(cfg: Config, ts: nat, now: nat) {
    now as int - ts as int <= cfg.freshMs
  }

  predicate Pending(s: State, device: Text) {
    device in s.intents && !s.intents[device].consumed
  }

  function OrRoom(cfg: Config, device: Text, session: Text): Text {
    if session == [] then Room(cfg, device) else session
  }

  function IssueStep(cfg: Config, s: State, device: Text, session: Text, now: nat): State {
    s.(intents := s.intents[device := Intent(OrRoom(cfg, device, session), now, false, None)], clock := now)
  }

  /** The stale ones among the unconsumed intents seen are to be removed one by one. */
  function Stale(cfg: Config, s: State, seen: set<Text>, now: nat): set<Text>
    requires forall d :: d in seen ==> d in s.intents
  {
    set d | d in seen && !Fresh(cfg, s.intents[d].ts, now)
  }

  function ListStep(cfg: Config, s: State, client: nat, seen: set<Text>, now: nat): State
    requires forall d :: d in seen ==> d in s.intents
  {
    s.(clients := s.clients[client := Cleaning(Stale(cfg, s, seen, now), now)], clock := now)
  }

  /** The removal is unconditional. */
  function RemoveStep(s: State, client: nat, device: Text, now: nat): State
    requires client in s.clients && s.clients[client].Cleaning?
  {
    var p := s.clients[client];
    s.(intents := s.intents - {device}, clients := s.clients[client := p.(stale := p.stale - {device})], clock := now)
  }

  /** The update looks for an unconsumed document and nothing else. */
  function ConsumeStep(cfg: Config, s: State, client: nat, device: Text, user: Text, now: nat): State {
    if !Pending(s, device) then s.(clients := s.clients[client := Nothing], clock := now)
    else
      s.(intents := s.intents[device := s.intents[device].(consumed := true, claim := Some(Claim(user, now)))],
      clients := s.clients[client := Took(device, OrRoom(cfg, device, s.intents[device].session))], clock := now)
  }

  /** The session read back afterwards, or the room when the document is gone or cannot be read. */
  function SessionNow(cfg: Config, s: State, device: Text, readable: bool): Text {
    if readable && device in s.intents then OrRoom(cfg, device, s.intents[device].session) else Room(cfg, device)
  }

  function ReadBackStep(cfg: Config, s: State, client: nat, readable: bool, now: nat): State
    requires client in s.clients && s.clients[client].Took?
  {
    var p := s.clients[client];
    s.(clients := s.clients[client := Got(p.device, p.taken, SessionNow(cfg, s, p.device, readable))], clock := now)
  }

  /** A listing sees at most 100 unconsumed intents, and all of them when there are fewer. */
  ghost predicate Sees(s: State, seen: set<Text>) {
    && |seen| <= 100 && (forall d :: d in seen ==> Pending(s, d))
    && (|seen| < 100 ==> forall d :: Pending(s, d) ==> d in seen)
  }

  ghost predicate Enabled(s: State, e: Event) {
    match e
    case Issue(_, _, now) => now >= s.clock
    case List(client, seen, now) => client !in s.clients && Sees(s, seen) && now >= s.clock
    case Remove(client, device, now) =>
      client in s.clients && s.clients[client].Cleaning? && device in s.clients[client].stale && now >= s.clock
    case Consume(client, _, _, now) => client !in s.clients && now >= s.clock
    case ReadBack(client, _, now) => client in s.clients && s.clients[client].Took? && now >= s.clock
  }

  ghost function Step(cfg: Config, s: State, e: Event): State
    requires Enabled(s, e)
  {
    match e
    case Issue(device, session, now) => IssueStep(cfg, s, device, session, now)
    case List(client, seen, now) => ListStep(cfg, s, client, seen, now)
    case Remove(client, device, now) => RemoveStep(s, client, device, now)
    case Consume(client, device, user, now) => ConsumeStep(cfg, s, client, device, user, now)
    case ReadBack(client, readable, now) => ReadBackStep(cfg, s, client, readable, now)
  }

  ghost predicate LegalRun(cfg: Config, s: State, events: seq<Event>)
    decreases |events|
  {
    events == [] || (Enabled(s, events[0]) && LegalRun(cfg, Step(cfg, s, events[0]), events[1..]))
  }

  ghost function Run(cfg: Config, s: State, events: seq<Event>): State
    requires LegalRun(cfg, s, events)
    decreases |events|
  {
    if events == [] then s else Run(cfg, Step(cfg, s, events[0]), events[1..])
  }

  // ---------- exact accounting ----------

  function If(b: bool): nat {
    if b then 1 else 0
  }

  ghost predicate Issues(e: Event, device: Text) {
    e.Issue? && e.device == device
  }

  ghost predicate Succeeds(s: State, e: Event, device: Text) {
    e.Consume? && e.device == device && Pending(s, device)
  }

  /** A pending intent is lost when it is issued again or cleaned away. */
  ghost predicate Loses(s: State, e: Event, device: Text) {
    (e.Issue? || e.Remove?) && e.device == device && Pending(s, device)
  }

  ghost function IssueCount(events: seq<Event>, device: Text): nat {
    if events == [] then 0 else If(Issues(events[0], device)) + IssueCount(events[1..], device)
  }

  ghost function SuccessCount(cfg: Config, s: State, events: seq<Event>, device: Text): nat
    requires LegalRun(cfg, s, events)
    decreases |events|
  {
    if events == [] then 0
    else If(Succeeds(s, events[0], device)) + SuccessCount(cfg, Step(cfg, s, events[0]), events[1..], device)
  }

  ghost function LossCount(cfg: Config, s: State, events: seq<Event>, device: Text): nat
    requires LegalRun(cfg, s, events)
    decreases |events|
  {
    if events == [] then 0
    else If(Loses(s, events[0], device)) + LossCount(cfg, Step(cfg, s, events[0]), events[1..], device)
  }

  lemma StepBalances(cfg: Config, s: State, e: Event, device: Text)
    requires Enabled(s, e)
    ensures If(Pending(s, device)) + If(Issues(e, device))
         == If(Succeeds(s, e, device)) + If(Loses(s, e, device)) + If(Pending(Step(cfg, s, e), device))
  {
  }

  /** Every issued intent is consumed once, lost once, or still pending: whatever the interleaving of
      issuers, consumers and cleaners. */
  lemma {:induction false} IntentsBalance(cfg: Config, s: State, events: seq<Event>, device: Text)
    requires LegalRun(cfg, s, events)
    ensures If(Pending(s, device)) + IssueCount(events, device)
         == SuccessCount(cfg, s, events, device) + LossCount(cfg, s, events, device)
            + If(Pending(Run(cfg, s, events), device))
    decreases |events|
  {
    if events != [] {
      StepBalances(cfg, s, events[0], device);
      IntentsBalance(cfg, Step(cfg, s, events[0]), events[1..], device);
    }
  }

  /** From an empty store, successful consume calls never outnumber issue calls. */
  lemma ConsumesNeverOutnumberIssues(cfg: Config, clock: nat, events: seq<Event>, device: Text)
    requires LegalRun(cfg, Start(clock), events)
    ensures SuccessCount(cfg, Start(clock), events, device) <= IssueCount(events, device)
  {
    IntentsBalance(cfg, Start(clock), events, device);
  }

  // ---------- what cleaning removes ----------

  /** What is still to be removed was stale at the listing, or has been issued again since. */
  ghost predicate CleaningOk(cfg: Config, s: State, client: nat, device: Text) {
    client in s.clients && s.clients[client].Cleaning? ==>
      && s.clients[client].at <= s.clock
      && (device in s.clients[client].stale && device in s.intents ==>
            s.intents[device].ts >= s.clients[client].at || !Fresh(cfg, s.intents[device].ts, s.clients[client].at))
  }

  lemma {:induction false} CleaningStaysOk(cfg: Config, s: State, events: seq<Event>, client: nat, device: Text)
    requires LegalRun(cfg, s, events) && CleaningOk(cfg, s, client, device)
    ensures CleaningOk(cfg, Run(cfg, s, events), client, device)
    decreases |events|
  {
    if events != [] { CleaningStaysOk(cfg, Step(cfg, s, events[0]), events[1..], client, device); }
  }

  /** In every reachable state, the removal of a listed intent at `now` hits one that is still fresh then
      only when it was issued again after the listing. */
  lemma FreshLossMeansReissue(cfg: Config, clock: nat, events: seq<Event>, client: nat, device: Text, now: nat)
    requires LegalRun(cfg, Start(clock), events)
    requires Enabled(Run(cfg, Start(clock), events), Remove(client, device, now))
    ensures var s := Run(cfg, Start(clock), events);
      device in s.intents && Fresh(cfg, s.intents[device].ts, now) ==> s.intents[device].ts >= s.clients[client].at
  {
    CleaningStaysOk(cfg, Start(clock), events, client, device);
  }

  // ---------- which session a consumer gets ----------

  lemma {:induction false} RunAppend(cfg: Config, s: State, events: seq<Event>)
    requires LegalRun(cfg, s, events) && events != []
    ensures var before, e := events[..|events| - 1], events[|events| - 1];
      LegalRun(cfg, s, before) && Enabled(Run(cfg, s, before), e)
      && Run(cfg, s, events) == Step(cfg, Run(cfg, s, before), e)
    decreases |events|
  {
    hide Step, Enabled;
    var before := events[..|events| - 1];
    if |events| == 1 {
      assert events[1..] == [] && before == [];
    } else {
      RunAppend(cfg, Step(cfg, s, events[0]), events[1..]);
      assert before[1..] == events[1..][..|events[1..]| - 1];
      assert before[0] == events[0] && events[1..][|events[1..]| - 1] == events[|events| - 1];
    }
  }

  ghost predicate NoReadBack(events: seq<Event>, client: nat) {
    forall i :: 0 <= i < |events| ==> !(events[i].ReadBack? && events[i].client == client)
  }

  /** The last issue or removal of the device's intent. */
  ghost function LastWrite(events: seq<Event>, device: Text): (last: Option<Event>)
    ensures last.Some? ==> (last.value.Issue? || last.value.Remove?) && last.value.device == device
  {
    if events == [] then None
    else
      var e := events[|events| - 1];
      if (e.Issue? || e.Remove?) && e.device == device then Some(e) else LastWrite(events[..|events| - 1], device)
  }

  /** What the device's document then reads as, when it read as `before` at first. */
  function Left(cfg: Config, device: Text, write: Option<Event>, before: Text): Text {
    if write.None? then before
    else if write.value.Issue? then OrRoom(cfg, device, write.value.session)
    else Room(cfg, device)
  }

  /** The client waits to read back, and would be given `session`. */
  ghost predicate WouldRead(cfg: Config, s: State, client: nat, device: Text, taken: Text, session: Text) {
    && client in s.clients && s.clients[client] == Took(device, taken)
    && SessionNow(cfg, s, device, true) == session
  }

  lemma WouldReadStep(cfg: Config, s: State, e: Event, client: nat, device: Text, taken: Text, session: Text)
    requires Enabled(s, e) && WouldRead(cfg, s, client, device, taken, session)
    requires !(e.ReadBack? && e.client == client)
    ensures var write := if (e.Issue? || e.Remove?) && e.device == device then Some(e) else None;
      WouldRead(cfg, Step(cfg, s, e), client, device, taken, Left(cfg, device, write, session))
  {
  }

  lemma {:induction false} ReadsWhatIsLeft(cfg: Config, s: State, events: seq<Event>, client: nat, device: Text,
        taken: Text, session: Text)
    requires LegalRun(cfg, s, events) && NoReadBack(events, client)
    requires WouldRead(cfg, s, client, device, taken, session)
    ensures WouldRead(cfg, Run(cfg, s, events), client, device, taken,
                  Left(cfg, device, LastWrite(events, device), session))
    decreases |events|
  {
    hide Step, WouldRead, Enabled;
    if events != [] {
      var before, e := events[..|events| - 1], events[|events| - 1];
      RunAppend(cfg, s, events);
      assert forall i :: 0 <= i < |before| ==> before[i] == events[i];
      ReadsWhatIsLeft(cfg, s, before, client, device, taken, session);
      var now := Left(cfg, device, LastWrite(before, device), session);
      WouldReadStep(cfg, Run(cfg, s, before), e, client, device, taken, now);
    }
  }

  /** What a consumer is given, whatever happens between its two database calls: what the last issue or
      removal in between left, the session it took if there was none, and the room when reading fails. */
  lemma {:induction false} ConsumerGetsWhatIsLeft(cfg: Config, s: State, client: nat, device: Text, user: Text,
      now: nat, between: seq<Event>, readable: bool, later: nat)
    requires Enabled(s, Consume(client, device, user, now)) && Pending(s, device) && NoReadBack(between, client)
    requires LegalRun(cfg, ConsumeStep(cfg, s, client, device, user, now), between)
    requires later >= Run(cfg, ConsumeStep(cfg, s, client, device, user, now), between).clock
    ensures var t := Run(cfg, ConsumeStep(cfg, s, client, device, user, now), between);
      && Enabled(t, ReadBack(client, readable, later))
      && var taken := OrRoom(cfg, device, s.intents[device].session);
         var left := Left(cfg, device, LastWrite(between, device), taken);
         ReadBackStep(cfg, t, client, readable, later).clients[client]
         == Got(device, taken, if readable then left else Room(cfg, device))
  {
    var u := ConsumeStep(cfg, s, client, device, user, now);
    var taken := OrRoom(cfg, device, s.intents[device].session);
    assert WouldRead(cfg, u, client, device, taken, taken);
    ReadsWhatIsLeft(cfg, u, between, client, device, taken, taken);
  }

  /** The exact condition: a consumer is given the session of the very intent it consumed if and only if
      nothing was written in between, or an issue for the same session came last; when the read-back fails or
      a removal came last, if and only if that session is the room. */
  lemma {:induction false} ConsumerGetsTheSessionItTook(cfg: Config, s: State, client: nat, device: Text, user: Text,
      now: nat, between: seq<Event>, readable: bool, later: nat)
    requires Enabled(s, Consume(client, device, user, now)) && Pending(s, device) && NoReadBack(between, client)
    requires LegalRun(cfg, ConsumeStep(cfg, s, client, device, user, now), between)
    requires later >= Run(cfg, ConsumeStep(cfg, s, client, device, user, now), between).clock
    ensures var t := Run(cfg, ConsumeStep(cfg, s, client, device, user, now), between);
      && Enabled(t, ReadBack(client, readable, later))
      && var got := ReadBackStep(cfg, t, client, readable, later).clients[client];
         var taken := OrRoom(cfg, device, s.intents[device].session);
         var last := LastWrite(between, device);
      && got.Got? && got.taken == taken
      && (got.session == taken <==>
            if !readable || (last.Some? && last.value.Remove?) then taken == Room(cfg, device)
            else last.None? || OrRoom(cfg, device, last.value.session) == taken)
  {
    ConsumerGetsWhatIsLeft(cfg, s, client, device, user, now, between, readable, later);
  }

  /** Nobody else need interfere: a read-back that fails gives the room for the session that was taken. */
  lemma {:induction false} UnreadableGivesTheRoom(cfg: Config, device: Text, session: Text, client: nat, user: Text)
    requires session != [] && session != Room(cfg, device)
    ensures var events := [Issue(device, session, 0), Consume(client, device, user, 0)];
      && LegalRun(cfg, Start(0), events)
      && Enabled(Run(cfg, Start(0), events), ReadBack(client, false, 0))
      && ReadBackStep(cfg, Run(cfg, Start(0), events), client, false, 0).clients[client]
         == Got(device, session, Room(cfg, device))
  {
    var issue, consume := Issue(device, session, 0), Consume(client, device, user, 0);
    var events := [issue, consume];
    assert events[1..] == [consume] && [consume][1..] == [];
    var s := Step(cfg, Start(0), issue);
    var t := Step(cfg, s, consume);
    assert LegalRun(cfg, t, []) && Run(cfg, t, []) == t;
    assert LegalRun(cfg, s, [consume]) && Run(cfg, s, [consume]) == t;
    assert Run(cfg, Start(0), events) == t;
  }

  /** When it is issued again in between, two consumers are given the same session, the newer one. */
  lemma ReissueGivesOneSessionTwice(cfg: Config, s: State, a: nat, b: nat, device: Text, user: Text,
        session: Text, now: nat)
    requires a != b && a !in s.clients && b !in s.clients && Pending(s, device) && now >= s.clock && session != []
    ensures var t := ConsumeStep(cfg, s, a, device, user, now);
      var u := IssueStep(cfg, t, device, session, now);
      var v := ConsumeStep(cfg, u, b, device, user, now);
      && Enabled(s, Consume(a, device, user, now)) && Enabled(t, Issue(device, session, now))
      && Enabled(u, Consume(b, device, user, now)) && Enabled(v, ReadBack(a, true, now))
      && var v' := ReadBackStep(cfg, v, a, true, now);
      && Enabled(v', ReadBack(b, true, now))
      && var w := ReadBackStep(cfg, v', b, true, now);
         w.clients[a].Got? && w.clients[b].Got? && w.clients[a].session == w.clients[b].session == session
  {
  }

  // ---------- expired intents ----------

  /** What consume is documented to do at `now`: refuse an intent that is consumed, missing or expired. */
  predicate KeepsPromise(cfg: Config, s: State, client: nat, device: Text, user: Text, now: nat) {
    ConsumeStep(cfg, s, client, device, user, now).clients[client] == Nothing <==>
    !Pending(s, device) || !Fresh(cfg, s.intents[device].ts, now)
  }

  /** The latest issue of the device's intent, if nothing consumed or removed it since. */
  ghost function WaitingSince(events: seq<Event>, device: Text): Option<nat> {
    if events == [] then None
    else
      var e := events[|events| - 1];
      if e.Issue? && e.device == device then Some(e.now)
      else if (e.Consume? || e.Remove?) && e.device == device then None
      else WaitingSince(events[..|events| - 1], device)
  }

  lemma WaitingStep(cfg: Config, s: State, e: Event, device: Text, since: Option<nat>)
    requires Enabled(s, e) && (Pending(s, device) <==> since.Some?)
    requires Pending(s, device) ==> s.intents[device].ts == since.value
    ensures var t := Step(cfg, s, e);
      var since' := if e.Issue? && e.device == device then Some(e.now)
                    else if (e.Consume? || e.Remove?) && e.device == device then None else since;
      && (Pending(t, device) <==> since'.Some?)
      && (Pending(t, device) ==> t.intents[device].ts == since'.value)
  {
  }

  /** What is pending, and since when, is told by the calls alone. */
  lemma {:induction false} PendingIsWaiting(cfg: Config, clock: nat, events: seq<Event>, device: Text)
    requires LegalRun(cfg, Start(clock), events)
    ensures var s := Run(cfg, Start(clock), events);
      && (Pending(s, device) <==> WaitingSince(events, device).Some?)
      && (Pending(s, device) ==> s.intents[device].ts == WaitingSince(events, device).value)
    decreases |events|
  {
    hide Step, Enabled, Pending;
    if events == [] {
      NothingPending(clock, device);
    } else {
      RunAppend(cfg, Start(clock), events);
      var before := events[..|events| - 1];
      PendingIsWaiting(cfg, clock, before, device);
      WaitingStep(cfg, Run(cfg, Start(clock), before), events[|events| - 1], device, WaitingSince(before, device));
    }
  }

  lemma NothingPending(clock: nat, device: Text)
    ensures !Pending(Start(clock), device)
  {
  }

  /** Who took the device's intent and when: the consume that found it waiting, unless it was issued again or
      removed since. */
  ghost function TakenBy(events: seq<Event>, device: Text): Option<Claim> {
    if events == [] then None
    else
      var past, e := events[..|events| - 1], events[|events| - 1];
      if (e.Issue? || e.Remove?) && e.device == device then None
      else if e.Consume? && e.device == device && WaitingSince(past, device).Some? then Some(Claim(e.user, e.now))
      else TakenBy(past, device)
  }

  ghost predicate ClaimAgrees(s: State, device: Text, taken: Option<Claim>) {
    device in s.intents ==> s.intents[device].claim == taken && (s.intents[device].consumed <==> taken.Some?)
  }

  lemma ClaimStep(cfg: Config, s: State, e: Event, device: Text, taken: Option<Claim>)
    requires Enabled(s, e) && ClaimAgrees(s, device, taken)
    ensures ClaimAgrees(Step(cfg, s, e), device,
                        if (e.Issue? || e.Remove?) && e.device == device then None
                        else if e.Consume? && e.device == device && Pending(s, device) then Some(Claim(e.user, e.now))
                        else taken)
  {
  }

  /** After every run a document is consumed exactly when a consume took it, and names who that was and when. */
  lemma {:induction false} ClaimNamesItsConsumer(cfg: Config, clock: nat, events: seq<Event>, device: Text)
    requires LegalRun(cfg, Start(clock), events)
    ensures ClaimAgrees(Run(cfg, Start(clock), events), device, TakenBy(events, device))
    decreases |events|
  {
    if events != [] {
      var past, e := events[..|events| - 1], events[|events| - 1];
      RunAppend(cfg, Start(clock), events);
      ClaimNamesItsConsumer(cfg, clock, past, device);
      PendingIsWaiting(cfg, clock, past, device);
      hide Step, ClaimAgrees, Enabled, Pending;
      ClaimStep(cfg, Run(cfg, Start(clock), past), e, device, TakenBy(past, device));
    }
  }

  /** Over every run: a consume at `now` keeps the documented promise exactly when the device's latest issue
      is not still waiting from more than `freshMs` before. */
  lemma {:induction false} PromiseKeptIffNoneExpiredWaits(cfg: Config, clock: nat, events: seq<Event>, client: nat,
      device: Text, user: Text, now: nat)
    requires LegalRun(cfg, Start(clock), events)
    requires Enabled(Run(cfg, Start(clock), events), Consume(client, device, user, now))
    ensures var since := WaitingSince(events, device);
      KeepsPromise(cfg, Run(cfg, Start(clock), events), client, device, user, now)
      <==> !(since.Some? && now > since.value + cfg.freshMs)
  {
    PendingIsWaiting(cfg, clock, events, device);
  }

  /** Over every run: a removal loses a pending intent that is still fresh exactly when the device's latest
      issue still waits, came no earlier than the listing behind the removal and is no older than `freshMs`. */
  lemma {:induction false} FreshIsLostIffReissued(cfg: Config, clock: nat, events: seq<Event>, client: nat,
      device: Text, now: nat)
    requires LegalRun(cfg, Start(clock), events)
    requires Enabled(Run(cfg, Start(clock), events), Remove(client, device, now))
    ensures var s := Run(cfg, Start(clock), events);
      var since := WaitingSince(events, device);
      Pending(s, device) && Fresh(cfg, s.intents[device].ts, now)
      <==> since.Some? && since.value >= s.clients[client].at && now <= since.value + cfg.freshMs
  {
    PendingIsWaiting(cfg, clock, events, device);
    FreshLossMeansReissue(cfg, clock, events, client, device, now);
  }

  /** It happens: listed when it has just expired, issued again, and only then removed. */
  lemma {:induction false} FreshIntentIsRemoved(cfg: Config, device: Text, session: Text, client: nat)
    ensures var late := cfg.freshMs + 1;
      var events := [Issue(device, session, 0), List(client, {device}, late), Issue(device, session, late)];
      && LegalRun(cfg, Start(0), events)
      && var s := Run(cfg, Start(0), events);
      && Enabled(s, Remove(client, device, late)) && Pending(s, device) && Fresh(cfg, s.intents[device].ts, late)
      && device !in Step(cfg, s, Remove(client, device, late)).intents
  {
    var late := cfg.freshMs + 1;
    var e0, e1, e2 := Issue(device, session, 0), List(client, {device}, late), Issue(device, session, late);
    assert [e0, e1, e2][1..] == [e1, e2] && [e1, e2][1..] == [e2] && [e2][1..] == [];
    var s0 := Step(cfg, Start(0), e0);
    assert Sees(s0, {device});
    var s1 := Step(cfg, s0, e1);
    assert s1.clients[client] == Cleaning({device}, late);
    var s2 := Step(cfg, s1, e2);
    hide Sees, Pending, Fresh, Stale;
    assert LegalRun(cfg, s2, []) && Run(cfg, s2, []) == s2;
    assert LegalRun(cfg, s1, [e2]) && Run(cfg, s1, [e2]) == s2;
    assert LegalRun(cfg, s0, [e1, e2]) && Run(cfg, s0, [e1, e2]) == s2;
    assert Run(cfg, Start(0), [e0, e1, e2]) == s2;
  }

  /** It happens: an intent issued at 0 is consumed when it has just expired. */
  lemma {:induction false} ExpiredIntentIsConsumed(cfg: Config, device: Text, session: Text, client: nat, user: Text)
    ensures var events := [Issue(device, session, 0)];
      var now := cfg.freshMs + 1;
      && LegalRun(cfg, Start(0), events)
      && Enabled(Run(cfg, Start(0), events), Consume(client, device, user, now))
      && !KeepsPromise(cfg, Run(cfg, Start(0), events), client, device, user, now)
      && ConsumeStep(cfg, Run(cfg, Start(0), events), client, device, user, now).clients[client].Took?
  {
    var e := Issue(device, session, 0);
    assert [e][1..] == [];
    var s := IssueStep(cfg, Start(0), device, session, 0);
    assert LegalRun(cfg, s, []) && Run(cfg, s, []) == s;
    assert Run(cfg, Start(0), [e]) == s;
  }
}

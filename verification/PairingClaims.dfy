/** Pairing codes claimed by any number of concurrent phones, one database call per step
    (deploy/trtc-sign/devices.js). */
module PairingClaims {
  import opened Outcomes
  import opened JsText
  import opened TextDigest

  const TTL_S: nat := 300
  const YEAR_S: nat := 31536000

  const ANDROID: Text := [0x61, 0x6E, 0x64, 0x72, 0x6F, 0x69, 0x64]
  const OWNER: Text := [0x6F, 0x77, 0x6E, 0x65, 0x72]

  datatype Code = Code(
    platform: Text, nameHint: Text, maxUses: int, used: int, expiresAt: int, createdAt: int, createdBy: Text,
    usedAt: Option<int>)

  datatype Device = Device(
    name: Text, platform: Text, secretHash: Digest, owner: Option<Text>, createdAt: int, expiresAt: int, revoked: bool)

  /** Which code and which call a device came from. */
  datatype Origin = Origin(code: Text, client: nat)

  /** Where a call of registerDevice has got to. */
  datatype Phase =
    | Checked(code: Text, maxUses: int, now: int)
    | Claimed(code: Text, now: int)
    | Registered(code: Text, device: Text)
    | Refused

  /** `origins` and `winners` are history: where each device came from, and whose claim of a code succeeded. */
  datatype State = State(
    codes: map<Text, Code>,
    devices: map<Text, Device>,
    clients: map<nat, Phase>,
    origins: map<Text, Origin>,
    winners: map<Text, nat>)

  /** Codes, device ids and calls are fresh; the clock of each call is arbitrary. */
  datatype Event =
    | Create(code: Text, platform: Text, nameHint: Text, now: int)
    | Check(client: nat, code: Text, now: int)
    | Claim(client: nat)
    | Insert(client: nat, device: Text, name: Text, secret: Text)

  function NewCode(platform: Text, nameHint: Text, now: int): Code {
    Code(if platform == [] then ANDROID else platform, nameHint, 1, 0, now + TTL_S, now, OWNER, None)
  }

  function NewDevice(name: Text, secret: Text, now: int): Device {
    Device(name, ANDROID, DigestOf(secret), None, now, now + YEAR_S, false)
  }

  function CreateStep(s: State, code: Text, platform: Text, nameHint: Text, now: int): State {
    s.(codes := s.codes[code := NewCode(platform, nameHint, now)])
  }

  predicate Usable(c: Code, now: int) {
    c.used < c.maxUses && now <= c.expiresAt
  }

  function CheckStep(s: State, client: nat, code: Text, now: int): State {
    if code !in s.codes || !Usable(s.codes[code], now) then s.(clients := s.clients[client := Refused])
    else s.(clients := s.clients[client := Checked(code, s.codes[code].maxUses, now)])
  }

  /** Whether the conditional update finds a document to change. */
  predicate ClaimSucceeds(s: State, code: Text, maxUses: int) {
    code in s.codes && s.codes[code].used < maxUses
  }

  function ClaimStep(s: State, client: nat): State
    requires client in s.clients && s.clients[client].Checked?
  {
    var p := s.clients[client];
    if ClaimSucceeds(s, p.code, p.maxUses) then
      s.(codes := s.codes[p.code := s.codes[p.code].(used := p.maxUses, usedAt := Some(p.now))],
      clients := s.clients[client := Claimed(p.code, p.now)],
      winners := s.winners[p.code := client])
    else s.(clients := s.clients[client := Refused])
  }

  function InsertStep(s: State, client: nat, device: Text, name: Text, secret: Text): State
    requires client in s.clients && s.clients[client].Claimed?
  {
    var p := s.clients[client];
    s.(devices := s.devices[device := NewDevice(name, secret, p.now)],
    origins := s.origins[device := Origin(p.code, client)],
    clients := s.clients[client := Registered(p.code, device)])
  }

  predicate Enabled(s: State, e: Event) {
    match e
    case Create(code, _, _, _) => code !in s.codes
    case Check(client, _, _) => client !in s.clients
    case Claim(client) => client in s.clients && s.clients[client].Checked?
    case Insert(client, device, _, _) => client in s.clients && s.clients[client].Claimed? && device !in s.devices
  }

  function Step(s: State, e: Event): State
    requires Enabled(s, e)
  {
    match e
    case Create(code, platform, hint, now) => CreateStep(s, code, platform, hint, now)
    case Check(client, code, now) => CheckStep(s, client, code, now)
    case Claim(client) => ClaimStep(s, client)
    case Insert(client, device, name, secret) => InsertStep(s, client, device, name, secret)
  }

  ghost predicate LegalRun(s: State, events: seq<Event>)
    decreases |events|
  {
    events == [] || (Enabled(s, events[0]) && LegalRun(Step(s, events[0]), events[1..]))
  }

  ghost function Run(s: State, events: seq<Event>): State
    requires LegalRun(s, events)
    decreases |events|
  {
    if events == [] then s else Run(Step(s, events[0]), events[1..])
  }

  /** Any codes, used or not and with any limit, before the first call. */
  function Init(codes: map<Text, Code>): State {
    State(codes, map[], map[], map[], map[])
  }

  // ---------- the invariant ----------

  ghost predicate PhaseOk(s: State, client: nat)
    requires client in s.clients
  {
    match s.clients[client]
    case Checked(code, maxUses, _) =>
      && code in s.codes && s.codes[code].maxUses == maxUses
      && (code !in s.winners ==> s.codes[code].used < maxUses)
    case Claimed(code, _) => code in s.winners && s.winners[code] == client
    case Registered(code, device) => code in s.winners && s.winners[code] == client && device in s.devices
    case Refused => true
  }

  ghost predicate WinnerOk(s: State, code: Text)
    requires code in s.winners
  {
    && code in s.codes && s.codes[code].used >= s.codes[code].maxUses
    && s.winners[code] in s.clients
    && var p := s.clients[s.winners[code]]; (p.Claimed? || p.Registered?) && p.code == code
  }

  ghost predicate DeviceOk(s: State, device: Text)
    requires device in s.origins
  {
    var o := s.origins[device];
    o.client in s.clients && s.clients[o.client] == Registered(o.code, device)
  }

  ghost predicate Inv(s: State) {
    && (forall client :: client in s.clients ==> PhaseOk(s, client))
    && (forall code :: code in s.winners ==> WinnerOk(s, code))
    && s.origins.Keys == s.devices.Keys
    && (forall device :: device in s.origins ==> DeviceOk(s, device))
  }

  lemma CreateKeeps(s: State, code: Text, platform: Text, nameHint: Text, now: int)
    requires Inv(s) && code !in s.codes
    ensures Inv(CreateStep(s, code, platform, nameHint, now))
  {
    var t := CreateStep(s, code, platform, nameHint, now);
    forall client | client in t.clients ensures PhaseOk(t, client) { assert PhaseOk(s, client); }
    forall c | c in t.winners ensures WinnerOk(t, c) { assert WinnerOk(s, c); }
    forall device | device in t.origins ensures DeviceOk(t, device) { assert DeviceOk(s, device); }
  }

  /** A new call that only looked. */
  lemma NewClientKeeps(s: State, t: State, client: nat)
    requires Inv(s) && client !in s.clients && client in t.clients && PhaseOk(t, client)
    requires t == s.(clients := s.clients[client := t.clients[client]])
    ensures Inv(t)
  {
    forall c | c in t.clients ensures PhaseOk(t, c) {
      if c != client { assert PhaseOk(s, c); }
    }
    forall c | c in t.winners ensures WinnerOk(t, c) { assert WinnerOk(s, c); }
    forall device | device in t.origins ensures DeviceOk(t, device) { assert DeviceOk(s, device); }
    hide PhaseOk, WinnerOk, DeviceOk;
  }

  lemma CheckKeeps(s: State, client: nat, code: Text, now: int)
    requires Inv(s) && client !in s.clients
    ensures Inv(CheckStep(s, client, code, now))
  {
    if code in s.winners { assert WinnerOk(s, code); }
    assert PhaseOk(CheckStep(s, client, code, now), client);
    hide Inv, PhaseOk;
    NewClientKeeps(s, CheckStep(s, client, code, now), client);
  }

  lemma ClaimKeeps(s: State, client: nat)
    requires Inv(s) && client in s.clients && s.clients[client].Checked?
    ensures Inv(ClaimStep(s, client))
  {
    var t := ClaimStep(s, client);
    assert PhaseOk(s, client);
    if s.clients[client].code in s.winners { assert WinnerOk(s, s.clients[client].code); }
    forall c | c in t.clients ensures PhaseOk(t, c) { assert PhaseOk(s, c); }
    forall c | c in t.winners ensures WinnerOk(t, c) { if c in s.winners { assert WinnerOk(s, c); } }
    forall device | device in t.origins ensures DeviceOk(t, device) { assert DeviceOk(s, device); }
  }

  lemma InsertKeeps(s: State, client: nat, device: Text, name: Text, secret: Text)
    requires Inv(s) && client in s.clients && s.clients[client].Claimed? && device !in s.devices
    ensures Inv(InsertStep(s, client, device, name, secret))
  {
    var t := InsertStep(s, client, device, name, secret);
    assert PhaseOk(s, client);
    forall c | c in t.clients ensures PhaseOk(t, c) { assert PhaseOk(s, c); }
    forall c | c in t.winners ensures WinnerOk(t, c) { assert WinnerOk(s, c); }
    forall d | d in t.origins ensures DeviceOk(t, d) { if d != device { assert DeviceOk(s, d); } }
  }

  lemma StepKeeps(s: State, e: Event)
    requires Inv(s) && Enabled(s, e)
    ensures Inv(Step(s, e))
  {
    hide Inv, CreateStep, CheckStep, ClaimStep, InsertStep;
    match e
    case Create(code, platform, hint, now) => CreateKeeps(s, code, platform, hint, now);
    case Check(client, code, now) => CheckKeeps(s, client, code, now);
    case Claim(client) => ClaimKeeps(s, client);
    case Insert(client, device, name, secret) => InsertKeeps(s, client, device, name, secret);
  }

  lemma {:induction false} RunKeeps(s: State, events: seq<Event>)
    requires Inv(s) && LegalRun(s, events)
    ensures Inv(Run(s, events))
    decreases |events|
  {
    hide Step, Inv;
    if events != [] {
      StepKeeps(s, events[0]);
      RunKeeps(Step(s, events[0]), events[1..]);
    }
  }

  // ---------- one device per code ----------

  /** However many phones race on a code, and whatever its use limit, it yields at most one device. */
  lemma OneDevicePerCode(codes: map<Text, Code>, events: seq<Event>, a: Text, b: Text)
    requires LegalRun(Init(codes), events)
    requires a in Run(Init(codes), events).devices && b in Run(Init(codes), events).devices
    ensures var s := Run(Init(codes), events);
      a in s.origins && b in s.origins && (s.origins[a].code == s.origins[b].code ==> a == b)
  {
    RunKeeps(Init(codes), events);
    var s := Run(Init(codes), events);
    assert DeviceOk(s, a) && DeviceOk(s, b);
    assert PhaseOk(s, s.origins[a].client) && PhaseOk(s, s.origins[b].client);
  }

  /** In every reachable state a claim succeeds exactly when it is the first claim of its code to be made. */
  lemma FirstClaimWins(codes: map<Text, Code>, events: seq<Event>, client: nat)
    requires LegalRun(Init(codes), events) && Enabled(Run(Init(codes), events), Claim(client))
    ensures var s := Run(Init(codes), events);
      ClaimStep(s, client).clients[client].Claimed? <==> s.clients[client].code !in s.winners
  {
    RunKeeps(Init(codes), events);
    var s := Run(Init(codes), events);
    assert PhaseOk(s, client);
    if s.clients[client].code in s.winners { assert WinnerOk(s, s.clients[client].code); }
  }

  /** Without a competitor a registration goes through exactly when the code is unused and unexpired. */
  lemma LoneRegistrationIffUsable(s: State, client: nat, code: Text, now: int, device: Text, name: Text, secret: Text)
    requires client !in s.clients && device !in s.devices
    ensures var checked := CheckStep(s, client, code, now);
      && (code in s.codes && s.codes[code].used < s.codes[code].maxUses && now <= s.codes[code].expiresAt
          <==> Enabled(checked, Claim(client)))
      && (Enabled(checked, Claim(client)) ==>
            var claimed := ClaimStep(checked, client);
            && Enabled(claimed, Insert(client, device, name, secret))
            && InsertStep(claimed, client, device, name, secret).clients[client] == Registered(code, device)
            && claimed.codes == s.codes[code := s.codes[code].(used := s.codes[code].maxUses, usedAt := Some(now))])
  {
  }

  lemma WinnerStep(s: State, e: Event, code: Text)
    requires Inv(s) && Enabled(s, e) && code in s.winners
    ensures code in Step(s, e).winners && Step(s, e).winners[code] == s.winners[code]
  {
    assert WinnerOk(s, code);
    if e.Claim? { assert PhaseOk(s, e.client); }
  }

  /** A claimed code belongs to the winner for good, even when that call never gets to insert its device:
      no other call can ever register with it. */
  lemma {:induction false} ClaimIsForGood(s: State, events: seq<Event>, code: Text)
    requires Inv(s) && LegalRun(s, events) && code in s.winners
    ensures var t := Run(s, events);
      && code in t.winners && t.winners[code] == s.winners[code]
      && forall d :: d in t.origins && t.origins[d].code == code ==> t.origins[d].client == s.winners[code]
    decreases |events|
  {
    if events == [] {
      forall d | d in s.origins && s.origins[d].code == code ensures s.origins[d].client == s.winners[code] {
        assert DeviceOk(s, d);
        assert PhaseOk(s, s.origins[d].client);
      }
    } else {
      WinnerStep(s, events[0], code);
      StepKeeps(s, events[0]);
      ClaimIsForGood(Step(s, events[0]), events[1..], code);
    }
  }
}

/** Devices and pairing codes told by the calls alone (deploy/trtc-sign/devices.js:68-133): every device came from a
    check of its code before it expired, and every document says what its calls said. */
module PairingHistory {
  import opened Outcomes
  import opened JsText
  import opened TextDigest
  import opened PairingClaims

  // ---------- what the calls say ----------

  /** The call that created the code. */
  ghost function CreatedBy(events: seq<Event>, code: Text): (made: Option<Event>)
    ensures made.Some? ==> made.value.Create? && made.value.code == code && made.value in events
  {
    if events == [] then None
    else if events[|events| - 1].Create? && events[|events| - 1].code == code then Some(events[|events| - 1])
    else CreatedBy(events[..|events| - 1], code)
  }

  /** When the code expires: as it was filed at first, or 300 seconds after the call that created it. */
  ghost function ExpiryOf(codes: map<Text, Code>, events: seq<Event>, code: Text): int {
    if code in codes then codes[code].expiresAt
    else if CreatedBy(events, code).Some? then CreatedBy(events, code).value.now + 300 else 0
  }

  /** The check that a call of registerDevice made. */
  ghost function CheckOf(events: seq<Event>, client: nat): (check: Option<Event>)
    ensures check.Some? ==> check.value.Check? && check.value.client == client && check.value in events
  {
    if events == [] then None
    else if events[|events| - 1].Check? && events[|events| - 1].client == client then Some(events[|events| - 1])
    else CheckOf(events[..|events| - 1], client)
  }

  ghost function InsertOf(events: seq<Event>, device: Text): (insert: Option<Event>)
    ensures insert.Some? ==> insert.value.Insert? && insert.value.device == device && insert.value in events
  {
    if events == [] then None
    else if events[|events| - 1].Insert? && events[|events| - 1].device == device then Some(events[|events| - 1])
    else InsertOf(events[..|events| - 1], device)
  }

  // ---------- what the documents say ----------

  ghost predicate CodeAgrees(codes: map<Text, Code>, s: State, events: seq<Event>, code: Text) {
    && (code in s.codes <==> code in codes || CreatedBy(events, code).Some?)
    && (code in codes ==> CreatedBy(events, code).None?)
    && (code in s.codes ==> s.codes[code].expiresAt == ExpiryOf(codes, events, code))
    && (code in s.codes && code !in codes && CreatedBy(events, code).Some? ==>
          var c, made := s.codes[code], CreatedBy(events, code).value;
          && c.platform == (if made.platform == [] then ANDROID else made.platform) && c.nameHint == made.nameHint
          && c.maxUses == 1 && c.createdAt == made.now && c.createdBy == OWNER
          && c.used == (if code in s.winners then 1 else 0))
    && (code in s.codes && code in s.winners ==>
          var check := CheckOf(events, s.winners[code]);
          check.Some? && s.codes[code].usedAt == Some(check.value.now))
  }

  /** A call that got past its check made it in time. */
  ghost predicate ClientAgrees(codes: map<Text, Code>, s: State, events: seq<Event>, client: nat) {
    && (client in s.clients <==> CheckOf(events, client).Some?)
    && (client in s.clients && CheckOf(events, client).Some? && !s.clients[client].Refused? ==>
          var check := CheckOf(events, client).value;
          && s.clients[client].code == check.code && check.now <= ExpiryOf(codes, events, check.code)
          && (s.clients[client].Checked? || s.clients[client].Claimed? ==> s.clients[client].now == check.now))
  }

  ghost predicate DeviceAgrees(codes: map<Text, Code>, s: State, events: seq<Event>, device: Text) {
    && (device in s.devices <==> InsertOf(events, device).Some?)
    && (device in s.devices <==> device in s.origins)
    && (device in s.devices && device in s.origins && InsertOf(events, device).Some? ==>
          var insert := InsertOf(events, device).value;
          && insert.client == s.origins[device].client && CheckOf(events, insert.client).Some?
          && var check := CheckOf(events, insert.client).value;
             && s.origins[device].code == check.code && check.now <= ExpiryOf(codes, events, check.code)
             && s.devices[device] == Device(insert.name, ANDROID, DigestOf(insert.secret), None, check.now,
                                            check.now + 365 * 24 * 60 * 60, false))
  }

  ghost predicate AllAgree(codes: map<Text, Code>, s: State, events: seq<Event>) {
    && (forall code {:trigger CodeAgrees(codes, s, events, code)} :: CodeAgrees(codes, s, events, code))
    && (forall client: nat {:trigger ClientAgrees(codes, s, events, client)} :: ClientAgrees(codes, s, events, client))
    && (forall d {:trigger DeviceAgrees(codes, s, events, d)} :: DeviceAgrees(codes, s, events, d))
  }

  // ---------- one more call ----------

  lemma {:induction false} OneMore(past: seq<Event>, e: Event, code: Text, client: nat, device: Text)
    ensures var all := past + [e];
      && CreatedBy(all, code) == (if e.Create? && e.code == code then Some(e) else CreatedBy(past, code))
      && CheckOf(all, client) == (if e.Check? && e.client == client then Some(e) else CheckOf(past, client))
      && InsertOf(all, device) == (if e.Insert? && e.device == device then Some(e) else InsertOf(past, device))
  {
    var all := past + [e];
    assert all[..|all| - 1] == past;
  }

  /** What a call does to the codes and the claims. */
  lemma CodesAfter(s: State, e: Event, code: Text)
    requires Inv(s) && Enabled(s, e)
    ensures var t := Step(s, e);
      var claims := e.Claim? && s.clients[e.client].code == code && code !in s.winners;
      && (code in t.codes <==> code in s.codes || (e.Create? && e.code == code))
      && (code in t.winners <==> code in s.winners || claims)
      && (code in t.winners ==> t.winners[code] == if claims then e.client else s.winners[code])
      && (code in t.codes && code !in s.codes && e.Create? ==>
            t.codes[code] == NewCode(e.platform, e.nameHint, e.now))
      && (code in s.codes ==>
            t.codes[code] == if claims then s.codes[code].(used := s.codes[code].maxUses,
                                                           usedAt := Some(s.clients[e.client].now))
                             else s.codes[code])
      && (claims ==> code in s.codes)
  {
    if e.Claim? {
      assert PhaseOk(s, e.client);
      if s.clients[e.client].code in s.winners { assert WinnerOk(s, s.clients[e.client].code); }
    }
    hide Inv, NewCode, PhaseOk, WinnerOk;
  }

  /** What a call does to the phase of a call. */
  lemma ClientAfter(s: State, e: Event, client: nat)
    requires Enabled(s, e)
    ensures var t := Step(s, e);
      && (client in t.clients <==> client in s.clients || (e.Check? && e.client == client))
      && (client in t.clients && client !in s.clients && e.Check? ==>
            t.clients[client] == Refused
            || (e.code in s.codes && e.now <= s.codes[e.code].expiresAt
                && t.clients[client] == Checked(e.code, s.codes[e.code].maxUses, e.now)))
      && (client in s.clients && client in t.clients ==>
            || t.clients[client] == s.clients[client] || t.clients[client] == Refused
            || (s.clients[client].Checked?
                && t.clients[client] == Claimed(s.clients[client].code, s.clients[client].now))
            || (s.clients[client].Claimed? && t.clients[client].Registered?
                && t.clients[client].code == s.clients[client].code))
  {
    hide NewCode, NewDevice;
  }

  lemma DeviceAfter(s: State, e: Event, d: Text)
    requires Enabled(s, e)
    ensures var t := Step(s, e);
      var inserts := e.Insert? && e.device == d;
      && (d in t.devices <==> d in s.devices || inserts) && (d in t.origins <==> d in s.origins || inserts)
      && (inserts ==> s.clients[e.client].Claimed? && d !in s.devices
                      && t.devices[d] == NewDevice(e.name, e.secret, s.clients[e.client].now)
                      && t.origins[d] == Origin(s.clients[e.client].code, e.client))
      && (!inserts && d in s.devices ==> t.devices[d] == s.devices[d])
      && (!inserts && d in s.origins ==> t.origins[d] == s.origins[d])
  {
    hide NewCode, NewDevice;
  }

  /** The expiry of a code on file is settled. */
  lemma {:induction false} ExpiryStays(codes: map<Text, Code>, s: State, past: seq<Event>, e: Event, code: Text)
    requires Enabled(s, e) && CodeAgrees(codes, s, past, code) && code in s.codes
    ensures ExpiryOf(codes, past + [e], code) == ExpiryOf(codes, past, code) == s.codes[code].expiresAt
  {
    OneMore(past, e, code, 0, []);
    hide CheckOf;
  }

  lemma {:induction false} CodeStep(codes: map<Text, Code>, s: State, past: seq<Event>, e: Event, code: Text)
    requires Inv(s) && Enabled(s, e) && AllAgree(codes, s, past)
    ensures CodeAgrees(codes, Step(s, e), past + [e], code)
  {
    var client := if code in s.winners then s.winners[code] else if e.Claim? then e.client else 0;
    OneMore(past, e, code, client, []);
    CodesAfter(s, e, code);
    assert CodeAgrees(codes, s, past, code) && ClientAgrees(codes, s, past, client);
    if code in s.winners { assert WinnerOk(s, code); }
    hide CreatedBy, CheckOf, InsertOf, AllAgree, Inv, Step, WinnerOk;
  }

  lemma {:induction false} ClientStep(codes: map<Text, Code>, s: State, past: seq<Event>, e: Event, client: nat)
    requires Inv(s) && Enabled(s, e) && AllAgree(codes, s, past)
    ensures ClientAgrees(codes, Step(s, e), past + [e], client)
  {
    assert ClientAgrees(codes, s, past, client);
    var code := if e.Check? && e.client == client then e.code
                else if CheckOf(past, client).Some? then CheckOf(past, client).value.code else [];
    OneMore(past, e, code, client, []);
    ClientAfter(s, e, client);
    assert CodeAgrees(codes, s, past, code);
    if code in s.codes { ExpiryStays(codes, s, past, e, code); }
    if client in s.clients { KnowsItsCode(s, client); }
    hide CreatedBy, CheckOf, InsertOf, AllAgree, Inv, ExpiryOf, CodeAgrees, Step;
  }

  /** A call that was not refused is about a code on file. */
  lemma KnowsItsCode(s: State, client: nat)
    requires Inv(s) && client in s.clients
    ensures !s.clients[client].Refused? ==> s.clients[client].code in s.codes
  {
    assert PhaseOk(s, client);
    if s.clients[client].Claimed? || s.clients[client].Registered? { assert WinnerOk(s, s.clients[client].code); }
  }

  lemma {:induction false} DeviceStep(codes: map<Text, Code>, s: State, past: seq<Event>, e: Event, d: Text)
    requires Inv(s) && Enabled(s, e) && AllAgree(codes, s, past)
    ensures DeviceAgrees(codes, Step(s, e), past + [e], d)
  {
    assert DeviceAgrees(codes, s, past, d);
    var client := if e.Insert? && e.device == d then e.client else if d in s.origins then s.origins[d].client else 0;
    assert ClientAgrees(codes, s, past, client);
    var code := if CheckOf(past, client).Some? then CheckOf(past, client).value.code else [];
    OneMore(past, e, code, client, d);
    DeviceAfter(s, e, d);
    assert CodeAgrees(codes, s, past, code);
    if code in s.codes { ExpiryStays(codes, s, past, e, code); }
    if client in s.clients { KnowsItsCode(s, client); }
    if d in s.origins { assert DeviceOk(s, d); }
    hide CreatedBy, CheckOf, InsertOf, AllAgree, Inv, ExpiryOf, CodeAgrees, DigestOf, Step;
  }

  lemma {:induction false} Unroll(s: State, events: seq<Event>)
    requires LegalRun(s, events) && events != []
    ensures var past, e := events[..|events| - 1], events[|events| - 1];
      LegalRun(s, past) && Enabled(Run(s, past), e) && Run(s, events) == Step(Run(s, past), e)
    decreases |events|
  {
    hide Step, Enabled;
    var past := events[..|events| - 1];
    if |events| == 1 {
      assert past == [] && events[1..] == [];
    } else {
      Unroll(Step(s, events[0]), events[1..]);
      assert past[0] == events[0] && past[1..] == events[1..][..|events| - 2];
      assert events[1..][|events| - 2] == events[|events| - 1];
    }
  }

  /** In every reachable state every code, call and device is what the calls say. */
  lemma {:induction false} DocumentsAreHistory(codes: map<Text, Code>, events: seq<Event>)
    requires LegalRun(Init(codes), events)
    ensures AllAgree(codes, Run(Init(codes), events), events) && Inv(Run(Init(codes), events))
    decreases |events|
  {
    if events != [] {
      hide Step, Inv, CodeAgrees, ClientAgrees, DeviceAgrees, Enabled;
      Unroll(Init(codes), events);
      var past, e := events[..|events| - 1], events[|events| - 1];
      DocumentsAreHistory(codes, past);
      var s := Run(Init(codes), past);
      assert events == past + [e];
      hide Run, LegalRun;
      StepKeeps(s, e);
      forall code ensures CodeAgrees(codes, Step(s, e), events, code) { CodeStep(codes, s, past, e, code); }
      forall client: nat ensures ClientAgrees(codes, Step(s, e), events, client) {
        ClientStep(codes, s, past, e, client);
      }
      forall d ensures DeviceAgrees(codes, Step(s, e), events, d) { DeviceStep(codes, s, past, e, d); }
    }
  }

  /** Every device was inserted by a call that had checked its code no later than the code's expiry; it carries that
      call's name and secret and is valid for a year from the check. */
  lemma DevicesAreGenuine(codes: map<Text, Code>, events: seq<Event>, d: Text)
    requires LegalRun(Init(codes), events) && d in Run(Init(codes), events).devices
    ensures var s := Run(Init(codes), events);
      d in s.origins && exists code, now, client, name, secret ::
        && Check(client, code, now) in events && Insert(client, d, name, secret) in events
        && s.origins[d] == Origin(code, client)
        && now <= ExpiryOf(codes, events, code)
        && s.devices[d] == Device(name, ANDROID, DigestOf(secret), None, now, now + 31536000, false)
  {
    DocumentsAreHistory(codes, events);
    var s := Run(Init(codes), events);
    assert DeviceAgrees(codes, s, events, d);
    var insert := InsertOf(events, d).value;
    var check := CheckOf(events, insert.client).value;
    assert check == Check(insert.client, check.code, check.now) && check in events;
    assert insert == Insert(insert.client, d, insert.name, insert.secret) && insert in events;
    hide Run, LegalRun, DigestOf;
    assert s.devices[d] == Device(insert.name, ANDROID, DigestOf(insert.secret), None, check.now,
                                  check.now + 31536000, false);
  }

  /** A check lets a call go on exactly when the code is on file, has a use left and is not past its expiry. */
  lemma CheckPassesIff(codes: map<Text, Code>, events: seq<Event>, client: nat, code: Text, now: int)
    requires LegalRun(Init(codes), events) && client !in Run(Init(codes), events).clients
    ensures var s := Run(Init(codes), events);
      Enabled(Step(s, Check(client, code, now)), Claim(client))
      <==> code in s.codes && s.codes[code].used < s.codes[code].maxUses && now <= ExpiryOf(codes, events, code)
  {
    DocumentsAreHistory(codes, events);
    assert CodeAgrees(codes, Run(Init(codes), events), events, code);
  }
}

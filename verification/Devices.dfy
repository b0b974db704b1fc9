/** createPairingCode and registerDevice over the stored documents. */
module Devices {
  import opened Outcomes
  import opened JsText
  import opened TextDigest
  import opened PairingClaims

  class Registry {
    var codes: map<Text, Code>
    var devices: map<Text, Device>
    ghost var clients: map<nat, Phase>
    ghost var origins: map<Text, Origin>
    ghost var winners: map<Text, nat>

    ghost function Value(): State
      reads this
    {
      State(codes, devices, clients, origins, winners)
    }

    constructor (codes: map<Text, Code>)
      ensures Value() == Init(codes)
    {
      this.codes := codes;
      devices, clients, origins, winners := map[], map[], map[], map[];
    }

    method CreatePairingCode(code: Text, platform: Text, nameHint: Text, now: int)
      modifies this
      ensures Value() == CreateStep(old(Value()), code, platform, nameHint, now)
    {
      var stored := if platform == [] then ANDROID else platform;
      codes := codes[code := Code(stored, nameHint, 1, 0, now + TTL_S, now, OWNER, None)];
    }

    /** The first database call of registerDevice: read the code and check it. */
    method ReadCode(ghost client: nat, code: Text, now: int) returns (found: Option<Code>)
      modifies this`clients
      ensures Value() == CheckStep(old(Value()), client, code, now)
      ensures found.Some? <==> clients[client].Checked?
      ensures found.Some? ==> code in codes && found.value == codes[code] && Usable(found.value, now)
    {
      if code !in codes || codes[code].used >= codes[code].maxUses || codes[code].expiresAt < now {
        found := None;
        clients := clients[client := Refused];
      } else {
        found := Some(codes[code]);
        clients := clients[client := Checked(code, codes[code].maxUses, now)];
      }
    }

    /** The second: the conditional update that claims it. */
    method ClaimCode(ghost client: nat, code: Text, maxUses: int, now: int) returns (updated: bool)
      requires client in clients && clients[client] == Checked(code, maxUses, now)
      modifies this`codes, this`clients, this`winners
      ensures Value() == ClaimStep(old(Value()), client)
      ensures updated <==> clients[client].Claimed?
    {
      updated := code in codes && codes[code].used < maxUses;
      if updated {
        codes := codes[code := codes[code].(used := maxUses, usedAt := Some(now))];
        clients := clients[client := Claimed(code, now)];
        winners := winners[code := client];
      } else {
        clients := clients[client := Refused];
      }
    }

    /** The third: the device document. */
    method InsertDevice(ghost client: nat, ghost code: Text, now: int, device: Text, name: Text, secret: Text)
      requires client in clients && clients[client] == Claimed(code, now)
      modifies this`devices, this`clients, this`origins
      ensures Value() == InsertStep(old(Value()), client, device, name, secret)
    {
      devices := devices[device := Device(name, ANDROID, DigestOf(secret), None, now, now + YEAR_S, false)];
      origins := origins[device := Origin(code, client)];
      clients := clients[client := Registered(code, device)];
    }
  }
}

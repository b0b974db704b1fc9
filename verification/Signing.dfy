/** issue, listPending and consume over the stored intents. */
module Signing {
  import opened Outcomes
  import opened JsText
  import opened IntentClaims

  datatype Listed = Listed(device: Text, room: Text, session: Text, ts: nat)

  datatype Found = Found(device: Text, intent: Intent)

  /** The fresh documents, in the order they were read. */
  function Answers(cfg: Config, docs: seq<Found>, now: nat): seq<Listed> {
    if docs == [] then []
    else
      var d := docs[0];
      (if Fresh(cfg, d.intent.ts, now)
       then [Listed(d.device, Room(cfg, d.device), OrRoom(cfg, d.device, d.intent.session), d.intent.ts)]
       else []) + Answers(cfg, docs[1..], now)
  }

  lemma {:induction false} AnswersAppend(cfg: Config, docs: seq<Found>, d: Found, now: nat)
    ensures Answers(cfg, docs + [d], now) == Answers(cfg, docs, now) + Answers(cfg, [d], now)
  {
    if docs == [] {
      assert docs + [d] == [d];
    } else {
      AnswersAppend(cfg, docs[1..], d, now);
      assert (docs + [d])[1..] == docs[1..] + [d];
    }
  }

  /** The documents of one query result: unconsumed, all different, as many as were seen. */
  ghost predicate Reads(s: State, docs: seq<Found>, seen: set<Text>) {
    && (forall i :: 0 <= i < |docs| ==>
          docs[i].device in seen && docs[i].device in s.intents && docs[i].intent == s.intents[docs[i].device])
    && (forall d :: d in seen ==> exists i :: 0 <= i < |docs| && docs[i].device == d)
  }

  /** listPending answers with exactly the fresh ones among what it saw. */
  lemma {:induction false} AnswersAreTheFresh(cfg: Config, docs: seq<Found>, now: nat, d: Text)
    ensures (exists a :: a in Answers(cfg, docs, now) && a.device == d)
       <==> (exists i :: 0 <= i < |docs| && docs[i].device == d && Fresh(cfg, docs[i].intent.ts, now))
  {
    if docs != [] {
      AnswersAreTheFresh(cfg, docs[1..], now, d);
      var head, tail := Answers(cfg, [docs[0]], now), Answers(cfg, docs[1..], now);
      assert [docs[0]][1..] == [] && Answers(cfg, [docs[0]][1..], now) == [];
      assert Answers(cfg, docs, now) == head + tail;
      if a :| a in Answers(cfg, docs, now) && a.device == d {
        assert a in head || a in tail;
        if a in tail {
          var i :| 0 <= i < |docs[1..]| && docs[1..][i].device == d && Fresh(cfg, docs[1..][i].intent.ts, now);
          assert docs[i + 1].device == d;
        }
      }
      if i :| 0 <= i < |docs| && docs[i].device == d && Fresh(cfg, docs[i].intent.ts, now) {
        if i == 0 {
          assert head[0] in Answers(cfg, docs, now);
        } else {
          assert docs[1..][i - 1].device == d;
          var a :| a in tail && a.device == d;
          assert a in head + tail;
        }
      }
    }
  }

  /** One more document adds one answer when it is no older than the limit: the device's room, its session or else
      the room, and its time. So the answers are those of the young documents, in their order. */
  lemma {:induction false} OneMoreAnswer(cfg: Config, docs: seq<Found>, d: Found, now: nat)
    ensures Answers(cfg, [], now) == []
    ensures Answers(cfg, docs + [d], now) == Answers(cfg, docs, now) +
      (if now <= d.intent.ts + cfg.freshMs then
         var room := cfg.roomPrefix + d.device;
         [Listed(d.device, room, if d.intent.session == [] then room else d.intent.session, d.intent.ts)]
       else [])
  {
    AnswersAppend(cfg, docs, d, now);
    assert [d][1..] == [];
    assert Answers(cfg, [d], now) == (if Fresh(cfg, d.intent.ts, now) then [Listed(d.device, Room(cfg, d.device),
      OrRoom(cfg, d.device, d.intent.session), d.intent.ts)] else []) + [];
  }

  class Intents {
    const cfg: Config
    var intents: map<Text, Intent>
    ghost var clients: map<nat, Phase>
    ghost var clock: nat

    ghost function Value(): State
      reads this
    {
      State(intents, clients, clock)
    }

    constructor (cfg: Config)
      ensures this.cfg == cfg && Value() == Start(0)
    {
      this.cfg := cfg;
      intents, clients, clock := map[], map[], 0;
    }

    method Issue(device: Text, session: Text, now: nat) returns (room: Text)
      requires now >= clock
      modifies this`intents, this`clock
      ensures Value() == IssueStep(cfg, old(Value()), device, session, now) && room == Room(cfg, device)
    {
      room := cfg.roomPrefix + device;
      var sessionId := if session != [] then session else room;
      intents := intents[device := Intent(sessionId, now, false, None)];
      clock := now;
    }

    /** listPending up to its clean-up: `docs` is what the query returned. */
    method ListPending(ghost client: nat, docs: seq<Found>, ghost seen: set<Text>, now: nat)
      returns (out: seq<Listed>, cleanup: seq<Text>)
      requires Enabled(Value(), List(client, seen, now)) && Reads(Value(), docs, seen)
      modifies this`clients, this`clock
      ensures Value() == ListStep(cfg, old(Value()), client, seen, now)
      ensures out == Answers(cfg, docs, now)
      ensures forall d :: d in cleanup <==> d in clients[client].stale
    {
      out, cleanup := [], [];
      ghost var stale := Stale(cfg, Value(), seen, now);
      for i := 0 to |docs|
        invariant Value() == old(Value())
        invariant out == Answers(cfg, docs[..i], now)
        invariant forall d :: d in cleanup <==>
                    exists k :: 0 <= k < i && docs[k].device == d && !Fresh(cfg, docs[k].intent.ts, now)
      {
        AnswersAppend(cfg, docs[..i], docs[i], now);
        assert docs[..i + 1] == docs[..i] + [docs[i]];
        var it := docs[i];
        if !Fresh(cfg, it.intent.ts, now) {
          cleanup := cleanup + [it.device];
        } else {
          var session := OrRoom(cfg, it.device, it.intent.session);
          out := out + [Listed(it.device, Room(cfg, it.device), session, it.intent.ts)];
        }
      }
      assert docs[..|docs|] == docs;
      clients := clients[client := Cleaning(stale, now)];
      clock := now;
    }

    method RemoveOne(ghost client: nat, device: Text, ghost now: nat)
      requires Enabled(Value(), Remove(client, device, now))
      modifies this`intents, this`clients, this`clock
      ensures Value() == RemoveStep(old(Value()), client, device, now)
    {
      clock := now;
      intents := intents - {device};
      clients := clients[client := clients[client].(stale := clients[client].stale - {device})];
    }

    /** consume, first database call. */
    method ConsumeIntent(ghost client: nat, device: Text, user: Text, now: nat) returns (updated: bool)
      requires Enabled(Value(), Consume(client, device, user, now))
      modifies this`intents, this`clients, this`clock
      ensures Value() == ConsumeStep(cfg, old(Value()), client, device, user, now)
      ensures updated <==> clients[client].Took?
    {
      clock := now;
      updated := device in intents && !intents[device].consumed;
      if updated {
        clients := clients[client := Took(device, OrRoom(cfg, device, intents[device].session))];
        intents := intents[device := intents[device].(consumed := true, claim := Some(Claim(user, now)))];
      } else {
        clients := clients[client := Nothing];
      }
    }

    /** consume, second database call, whose failure falls back to the room. */
    method ReadSession(ghost client: nat, device: Text, readable: bool, ghost now: nat) returns (session: Text)
      requires Enabled(Value(), ReadBack(client, readable, now)) && clients[client].device == device
      modifies this`clients, this`clock
      ensures Value() == ReadBackStep(cfg, old(Value()), client, readable, now)
      ensures clients[client].Got? && session == clients[client].session
    {
      clock := now;
      session := cfg.roomPrefix + device;
      if readable && device in intents && intents[device].session != [] {
        session := intents[device].session;
      }
      clients := clients[client := Got(device, clients[client].taken, session)];
    }
  }
}

/** What the payload hash of a terminate or retry request is taken of, and that it tells requests apart
    (deploy/trtc-sign/termination-service.js). */
module RequestBodies {
  import opened JsText
  import opened Numerals
  import opened CanonicalJson
  import opened CanonicalDigest
  import opened TerminationContract

  function Word(s: string): Text {
    seq(|s|, i requires 0 <= i < |s| => s[i] as int % 0x1_0000)
  }

  /** The validated body of a terminate request. */
  datatype TerminateBody = TerminateBody(
    sessionId: Text, deviceId: Text, roomId: Text, generation: nat, requestId: Text, reason: Text, requestedAt: Text)

  function TerminateJson(b: TerminateBody): Json {
    Obj([Field(Word("session_id"), Str(b.sessionId)),
         Field(Word("device_id"), Str(b.deviceId)),
         Field(Word("room_id"), Str(b.roomId)),
         Field(Word("generation"), Num(Numeral(b.generation))),
         Field(Word("request_id"), Str(b.requestId)),
         Field(Word("reason"), Str(b.reason)),
         Field(Word("requested_at"), Str(b.requestedAt))])
  }

  function ReasonWord(reason: RetryReason): Text {
    match reason
    case RetryFailedAcknowledgements => Word("retry_failed_acknowledgements")
    case RetryTimeout => Word("retry_timeout")
  }

  /** What a retry request is digested from. */
  function RetryJson(sessionId: Text, parentId: Text, reason: RetryReason): Json {
    Obj([Field(Word("session_id"), Str(sessionId)),
         Field(Word("parent_termination_id"), Str(parentId)),
         Field(Word("reason"), Str(ReasonWord(reason)))])
  }

  lemma {:induction false} TerminateIsWellFormed(b: TerminateBody)
    ensures WellFormed(TerminateJson(b))
  {
    hide Numeral;
    var f := TerminateJson(b).fields;
    assert f[0].key[0] != f[3].key[0] && f[0].key[0] != f[4].key[0] && f[3].key[0] != f[4].key[0];
    NumeralUnits(b.generation);
  }

  lemma {:induction false} RetryIsWellFormed(sid: Text, pid: Text, reason: RetryReason)
    ensures WellFormed(RetryJson(sid, pid, reason))
  {
    var f := RetryJson(sid, pid, reason).fields;
    assert f[0].key[0] != f[1].key[0] && f[0].key[0] != f[2].key[0] && f[1].key[0] != f[2].key[0];
  }

  /** Objects with the same keys in the same places can only be the same field by field. */
  lemma SameFieldByField(v: Json, w: Json, i: nat)
    requires v.Obj? && w.Obj? && WellFormed(v) && Same(v, w)
    requires |v.fields| == |w.fields| && i < |v.fields|
    requires forall k :: 0 <= k < |v.fields| ==> v.fields[k].key == w.fields[k].key
    ensures Same(v.fields[i].value, w.fields[i].value)
  {
    assert OccursIn(v.fields[i], w.fields);
    var j :| 0 <= j < |w.fields| && SameField(v.fields[i], w.fields[j]);
    assert j == i;
  }

  /** The digest tells terminate bodies apart. */
  lemma {:induction false} TerminateHashIsInjective(a: TerminateBody, b: TerminateBody)
    requires PayloadHash(TerminateJson(a)) == PayloadHash(TerminateJson(b))
    ensures a == b
  {
    var v, w := TerminateJson(a), TerminateJson(b);
    TerminateIsWellFormed(a);
    TerminateIsWellFormed(b);
    PayloadHashIsUnambiguous(v, w);
    forall i | 0 <= i < 7 ensures FieldsAgree(a, b, i) { SameFieldByField(v, w, i); }
    SameBodies(a, b);
  }

  ghost predicate FieldsAgree(a: TerminateBody, b: TerminateBody, i: nat)
    requires i < 7
  {
    Same(TerminateJson(a).fields[i].value, TerminateJson(b).fields[i].value)
  }

  lemma {:induction false} SameBodies(a: TerminateBody, b: TerminateBody)
    requires forall i :: 0 <= i < 7 ==> FieldsAgree(a, b, i)
    ensures a == b
  {
    assert FieldsAgree(a, b, 0) && FieldsAgree(a, b, 1) && FieldsAgree(a, b, 2);
    assert FieldsAgree(a, b, 3) && FieldsAgree(a, b, 4) && FieldsAgree(a, b, 5) && FieldsAgree(a, b, 6);
    NumeralIsInjective(a.generation, b.generation);
  }

  /** So it does retries. */
  lemma {:induction false} RetryHashIsInjective(s1: Text, p1: Text, r1: RetryReason, s2: Text, p2: Text,
        r2: RetryReason)
    requires PayloadHash(RetryJson(s1, p1, r1)) == PayloadHash(RetryJson(s2, p2, r2))
    ensures s1 == s2 && p1 == p2 && r1 == r2
  {
    var v, w := RetryJson(s1, p1, r1), RetryJson(s2, p2, r2);
    RetryIsWellFormed(s1, p1, r1);
    RetryIsWellFormed(s2, p2, r2);
    PayloadHashIsUnambiguous(v, w);
    SameFieldByField(v, w, 0); SameFieldByField(v, w, 1); SameFieldByField(v, w, 2);
    ReasonWordIsInjective(r1, r2);
  }

  lemma ReasonWordIsInjective(a: RetryReason, b: RetryReason)
    ensures ReasonWord(a) == ReasonWord(b) ==> a == b
  {
    assert ReasonWord(RetryFailedAcknowledgements)[6] == 'f' as int && ReasonWord(RetryTimeout)[6] == 't' as int;
  }

  /** No terminate body digests like a retry: a device id has no place in the latter. */
  lemma {:induction false} TerminateIsNeverRetry(b: TerminateBody, sid: Text, pid: Text, reason: RetryReason)
    ensures PayloadHash(TerminateJson(b)) != PayloadHash(RetryJson(sid, pid, reason))
  {
    var v, w := TerminateJson(b), RetryJson(sid, pid, reason);
    TerminateIsWellFormed(b);
    RetryIsWellFormed(sid, pid, reason);
    PayloadHashIsUnambiguous(v, w);
    if Same(v, w) {
      assert OccursIn(v.fields[1], w.fields);
    }
    assert v.fields[1].key[0] == 'd' as int;
    assert w.fields[0].key[0] != 'd' as int && w.fields[1].key[0] != 'd' as int && w.fields[2].key[0] != 'd' as int;
  }
}

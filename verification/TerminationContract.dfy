/** Names, reporters and hash keys of the termination protocol
    (deploy/trtc-sign/termination-contract.js). */
module TerminationContract {
  import opened Outcomes
  import opened JsText
  import opened Numerals
  import opened TextDigest

  datatype AckName =
    | AndroidTrtcLeft
    | SidecarTrtcLeft
    | BridgeDrainedClosed
    | ApmCancelledClosed
    | BrainTurnsSealed

  /** Authenticated principals; only the first four report acknowledgements. */
  datatype Reporter = Android | Sidecar | RtcBridge | Brain | Other(name: Text)

  /** ACK_REPORTERS: who must confirm each acknowledgement. */
  function Reporters(name: AckName): set<Reporter> {
    match name
    case AndroidTrtcLeft => {Android}
    case SidecarTrtcLeft => {Sidecar}
    case BridgeDrainedClosed => {Sidecar, RtcBridge}
    case ApmCancelledClosed => {RtcBridge}
    case BrainTurnsSealed => {Brain}
  }

  const ACK_NAMES: seq<AckName> :=
    [AndroidTrtcLeft, SidecarTrtcLeft, BridgeDrainedClosed, ApmCancelledClosed, BrainTurnsSealed]

  datatype Verdict = Confirmed | Failed

  datatype Report = Report(verdict: Verdict, errorCode: Option<Text>, reportedAt: nat)

  datatype Ack = AckPending | AckConfirmed | AckFailed

  datatype Outcome = Pending | Partial | Timeout | Complete

  datatype RetryReason = RetryFailedAcknowledgements | RetryTimeout

  /** RETRY_REASON: only partial and timed-out terminations may be retried. */
  function ReasonFor(result: Outcome): Option<RetryReason> {
    match result
    case Partial => Some(RetryFailedAcknowledgements)
    case Timeout => Some(RetryTimeout)
    case _ => None
  }

  lemma NamesAreAll(name: AckName)
    ensures name in ACK_NAMES
  {
    var at := match name case AndroidTrtcLeft => 0 case SidecarTrtcLeft => 1 case BridgeDrainedClosed => 2
                         case ApmCancelledClosed => 3 case BrainTurnsSealed => 4;
    assert ACK_NAMES[at] == name;
  }

  function InitialAcks(): (acks: map<AckName, Ack>)
    ensures forall name: AckName :: name in acks && acks[name] == AckPending
  {
    assert forall name: AckName :: name in ACK_NAMES by {
      forall name: AckName ensures name in ACK_NAMES { NamesAreAll(name); }
    }
    map name | name in ACK_NAMES :: AckPending
  }

  /** The text that `requestKey` digests: the three parts separated by NUL. */
  function KeyText(sessionId: Text, generation: nat, requestId: Text): Text {
    sessionId + [NUL] + Numeral(generation) + [NUL] + requestId
  }

  function RequestKey(sessionId: Text, generation: nat, requestId: Text): Digest {
    DigestOf(KeyText(sessionId, generation, requestId))
  }
}

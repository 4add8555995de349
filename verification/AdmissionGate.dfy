/** The operator's admission gate: two rows of `gateway_settings`, written by
    `scripts/job_admission.py` and read by the gateway. */
module AdmissionGate {
  import opened Common
  import opened PythonInt

  datatype Gate = Gate(draining: Option<string>, owner: Option<Hash>)

  const OPEN := Gate(None, None)

  /** `draining is not None and draining[0] != "0"`, the script's reading. */
  predicate ScriptPaused(value: Option<string>) {
    value.Some? && value.value != "0"
  }

  /** `_draining_value`, the gateway's reading: unknown settings fail closed. */
  predicate PausedAsRead(r: Interpreter, value: Option<string>) {
    match value
    case None => false
    case Some(text) => PyInt(r, text) != Some(0)
  }

  predicate GatewayPaused(value: Option<string>) {
    PausedAsRead(PYTHON_3_11, value)
  }

  datatype GateReply = Done | AlreadyOpen | OwnedByAnother

  /** The transaction of `set_draining`. */
  function SetDraining(g: Gate, enabled: bool, owner: Hash): (Gate, GateReply) {
    var paused := ScriptPaused(g.draining);
    if enabled then
      if paused && g.owner != Some(owner) then
        (g, OwnedByAnother)
      else
        (Gate(Some("1"), Some(owner)), Done)
    else if !paused then
      (g, AlreadyOpen)
    else if g.owner != Some(owner) then
      (g, OwnedByAnother)
    else
      (Gate(Some("0"), None), Done)
  }

  // ---------------------------------------------------------------- ownership

  /** What the script leaves behind: a known value, and an owner exactly while paused. */
  predicate GateOk(g: Gate) {
    && g.draining in {None, Some("0"), Some("1")}
    && (g.owner.Some? <==> ScriptPaused(g.draining))
  }

  // ------------------------------------------------------------- two readers

  /** The two readers agree on every stored text except the spellings of zero other than "0"
      itself: blanks around it, a sign, more zeros, zeros of other scripts. Such a text the
      script takes for a pause and the gateway for an open gate. This holds of every
      interpreter. */
  lemma ReadersAgreeExactly(r: Interpreter, value: Option<string>)
    ensures ScriptPaused(value) == PausedAsRead(r, value) <==>
      value == None || value == Some("0") || !SpellsZero(r, value.value)
  {
    ReadsZeroAndOne(r);
    if value.Some? {
      ReadsAsZero(r, value.value);
    }
  }

  /** On each side of the line: more zeros and a Unicode blank lead apart; a control character
      that is no blank, or one zero too many, does not. */
  lemma ReadersOnExamples()
    ensures ScriptPaused(Some("00")) && !GatewayPaused(Some("00"))
    ensures ScriptPaused(Some("\U{A0}0")) && !GatewayPaused(Some("\U{A0}0"))
    ensures ScriptPaused(Some("\U{1C}0")) && GatewayPaused(Some("\U{1C}0"))
    ensures forall n :: n > 4300 ==> ScriptPaused(Some(Repeated('0', n))) && GatewayPaused(Some(Repeated('0', n)))
  {
    var r := PYTHON_3_11;
    ManyZeros(r, 2);
    assert Repeated('0', 2) == "00";
    ReadsZeroAndOne(r);
    assert "\U{A0}0"[1..] == "0" && Strip("0") == "0";
    assert Strip("\U{A0}0") == "0";
    assert Strip("\U{1C}0") == "\U{1C}0" && Unsigned("\U{1C}0") == "\U{1C}0";
    assert Digits(r, "\U{1C}0", 0, false) == None;
    forall n: nat | n > 4300
      ensures ScriptPaused(Some(Repeated('0', n))) && GatewayPaused(Some(Repeated('0', n)))
    {
      ManyZeros(r, n);
      assert |Repeated('0', n)| == n != |"0"|;
    }
  }

  datatype GateRequest = GateRequest(enabled: bool, operator: Hash)

  /** The gate after a sequence of drain and resume transactions on a fresh database. */
  function AfterRequests(requests: seq<GateRequest>): Gate {
    if requests == [] then OPEN
    else
      var last := requests[|requests| - 1];
      SetDraining(AfterRequests(requests[..|requests| - 1]), last.enabled, last.operator).0
  }

  /** Reference: a lock that a drain takes when it is free and the holder's resume frees. */
  function Holder(requests: seq<GateRequest>): Option<Hash> {
    if requests == [] then None
    else
      var last := requests[|requests| - 1];
      match Holder(requests[..|requests| - 1])
      case None => if last.enabled then Some(last.operator) else None
      case Some(h) => if !last.enabled && last.operator == h then None else Some(h)
  }

  /** Over all sequences of requests by any operators, the gate is the lock: the stored
      owner is its holder, both readers see a pause exactly while it is held, and a request
      is refused exactly when another operator holds it. */
  lemma {:induction false} GateIsALock(requests: seq<GateRequest>, next: GateRequest)
    ensures GateOk(AfterRequests(requests))
    ensures AfterRequests(requests).owner == Holder(requests)
    ensures ScriptPaused(AfterRequests(requests).draining) <==> Holder(requests).Some?
    ensures GatewayPaused(AfterRequests(requests).draining) <==> Holder(requests).Some?
    ensures SetDraining(AfterRequests(requests), next.enabled, next.operator).1 == OwnedByAnother <==>
      Holder(requests).Some? && Holder(requests) != Some(next.operator)
    ensures SetDraining(AfterRequests(requests), next.enabled, next.operator).1 == AlreadyOpen <==>
      Holder(requests).None? && !next.enabled
  {
    ReadsZeroAndOne(PYTHON_3_11);
    if requests != [] {
      GateIsALock(requests[..|requests| - 1], requests[|requests| - 1]);
    }
  }
}

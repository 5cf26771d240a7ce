/**
 The specification of one layer cache: a bounded window over a stream of tokens.

 Everything a caller of a layer cache may rely on is a function of a `Window`.
 The ring, the blocks, the staging buffers and the shared storage all have to
 refine it.
 */
module TokenWindow {

  /** A stored element: a real number, or a value that is not finite. */
  datatype Float = Finite(val: real) | NonFinite(tag: nat)

  type Vec = seq<Float>

  /** The key row and the value row of one token. */
  datatype Token = Token(key: Vec, value: Vec)

  datatype KvError =
    | CapacityExceeded(requested: nat, available: nat)
    | ShapeMismatch(expected: nat, actual: nat)
    | UnsupportedFormat
    | NonFiniteValue
    | InvalidShape

  datatype Outcome<+T> = Ok(value: T) | Err(error: KvError)

  predicate AllFinite(v: Vec) {
    forall i :: 0 <= i < |v| ==> v[i].Finite?
  }

  function Zeros(n: nat): (v: Vec)
    ensures |v| == n
  {
    seq(n, _ => Finite(0.0))
  }

  datatype Window = Window(max: nat, vectorLen: nat, compressed: bool, rows: seq<Token>, seen: nat, revision: nat)

  /** What makes an append fail, checked in this order and before anything is written. */
  function Reject(vectorLen: nat, compressed: bool, t: Token): (r: Outcome<()>) {
    if |t.key| != vectorLen then Err(ShapeMismatch(vectorLen, |t.key|))
    else if |t.value| != vectorLen then Err(ShapeMismatch(vectorLen, |t.value|))
    else if compressed && !(AllFinite(t.key) && AllFinite(t.value)) then Err(NonFiniteValue)
    else Ok(())
  }

  function Push(w: Window, t: Token): (r: Window) {
    w.(rows := w.rows + [t], seen := w.seen + 1, revision := w.revision + 1)
  }

  function Append(w: Window, t: Token): (r: (Window, Outcome<nat>)) {
    var check := Reject(w.vectorLen, w.compressed, t);
    if check.Err? then (w, Err(check.error))
    else if |w.rows| == w.max then (w, Err(CapacityExceeded(1, 0)))
    else (Push(w, t), Ok(|w.rows|))
  }

  /** Drop the head if the window is full, then push. */
  function AppendSliding(w: Window, t: Token): (r: (Window, Outcome<nat>)) {
    var check := Reject(w.vectorLen, w.compressed, t);
    if check.Err? then (w, Err(check.error))
    else
      var w' := if w.rows != [] && |w.rows| == w.max then w.(rows := w.rows[1..]) else w;
      (Push(w', t), Ok(|w'.rows|))
  }

  function Clear(w: Window): (r: Window) {
    w.(rows := [], seen := 0, revision := w.revision + 1)
  }

  datatype CacheOp = OpAppend(t: Token) | OpSliding(t: Token) | OpClear

  function Apply(w: Window, op: CacheOp): (r: (Window, Outcome<nat>)) {
    match op
    case OpAppend(t) => Append(w, t)
    case OpSliding(t) => AppendSliding(w, t)
    case OpClear => (Clear(w), Ok(0))
  }

  function ApplyAll(w: Window, ops: seq<CacheOp>): (r: Window) {
    if ops == [] then w else Apply(ApplyAll(w, ops[..|ops| - 1]), ops[|ops| - 1]).0
  }

  /** The tokens accepted since the last clear after one more operation. */
  function Accept(w: Window, h: seq<Token>, op: CacheOp): (h': seq<Token>) {
    if op.OpClear? then [] else if Apply(w, op).1.Ok? then h + [op.t] else h
  }

  /** The tokens accepted since the last clear, oldest first, however many there were. */
  function Accepted(w: Window, ops: seq<CacheOp>): (h: seq<Token>) {
    if ops == [] then []
    else Accept(ApplyAll(w, ops[..|ops| - 1]), Accepted(w, ops[..|ops| - 1]), ops[|ops| - 1])
  }

  function LastOf(h: seq<Token>, max: nat): (s: seq<Token>) {
    if |h| <= max then h else h[|h| - max..]
  }

  function Empty(max: nat, vectorLen: nat, compressed: bool): Window {
    Window(max, vectorLen, compressed, [], 0, 0)
  }

  /** The window of `shape` holds the last tokens of `h`, all of them acceptable. */
  predicate Holds(w: Window, shape: Window, h: seq<Token>) {
    && w.max == shape.max > 0 && w.vectorLen == shape.vectorLen && w.compressed == shape.compressed
    && w.rows == LastOf(h, w.max)
    && w.seen == |h|
    && forall i :: 0 <= i < |w.rows| ==> Reject(w.vectorLen, w.compressed, w.rows[i]).Ok?
  }

  lemma ApplyHolds(w: Window, shape: Window, h: seq<Token>, op: CacheOp)
    requires Holds(w, shape, h)
    ensures Holds(Apply(w, op).0, shape, Accept(w, h, op))
  {
    hide Reject;
    if !op.OpClear? && Apply(w, op).1.Ok? {
      LastOfGrows(h, op.t, w.max);
    }
  }

  /** What one call reports and changes. A refused token changes nothing; an accepted one is found at the reported
      index, which is the last, and counts once in `seen` and once in `revision`. A plain append refuses exactly
      when the window is full, a sliding one never does. Clearing counts in `revision` only. */
  lemma ApplyReports(w: Window, op: CacheOp)
    requires 0 < w.max && |w.rows| <= w.max
    ensures var (w', r) := Apply(w, op);
            && w'.max == w.max && w'.vectorLen == w.vectorLen && w'.compressed == w.compressed
            && (r.Err? ==> w' == w)
            && (op.OpClear? ==> r == Ok(0) && w'.rows == [] && w'.seen == 0 && w'.revision == w.revision + 1)
            && (!op.OpClear? && r.Ok? ==>
                  && r.value == |w'.rows| - 1 && w'.rows[r.value] == op.t
                  && w'.seen == w.seen + 1 && w'.revision == w.revision + 1)
            && (!op.OpClear? && Reject(w.vectorLen, w.compressed, op.t).Ok? ==>
                  (r.Err? <==> op.OpAppend? && |w.rows| == w.max) && (r.Err? ==> r.error == CapacityExceeded(1, 0)))
            && (!op.OpClear? && Reject(w.vectorLen, w.compressed, op.t).Err? ==>
                  r.Err? && r.error == Reject(w.vectorLen, w.compressed, op.t).error)
  {
    hide Reject;
  }

  /** How many calls of a run succeed. */
  function Successes(w: Window, ops: seq<CacheOp>): nat {
    if ops == [] then 0
    else
      var before := ops[..|ops| - 1];
      Successes(w, before) + if Apply(ApplyAll(w, before), ops[|ops| - 1]).1.Ok? then 1 else 0
  }

  /** Over a whole run the revision counts the calls that succeeded, and a call that fails leaves no trace. */
  lemma {:induction false} RevisionCountsSuccesses(w: Window, ops: seq<CacheOp>)
    requires 0 < w.max && |w.rows| <= w.max
    ensures ApplyAll(w, ops).revision == w.revision + Successes(w, ops)
    ensures ApplyAll(w, ops).max == w.max && |ApplyAll(w, ops).rows| <= w.max
  {
    if ops != [] {
      var before := ops[..|ops| - 1];
      RevisionCountsSuccesses(w, before);
      ApplyReports(ApplyAll(w, before), ops[|ops| - 1]);
    }
  }

  /** A token is refused exactly when a row has the wrong length or, in a compressed cache, a value is not finite;
      the key is looked at first, and shapes before values. */
  lemma RejectMeans(vectorLen: nat, compressed: bool, t: Token)
    ensures var r := Reject(vectorLen, compressed, t);
            && (r.Ok? <==> |t.key| == |t.value| == vectorLen
                           && (compressed ==> forall x :: x in t.key + t.value ==> x.Finite?))
            && (r.Err? && |t.key| == |t.value| == vectorLen ==> r.error == NonFiniteValue)
            && (|t.key| != vectorLen ==> r.Err? && r.error == ShapeMismatch(vectorLen, |t.key|))
            && (|t.key| == vectorLen != |t.value| ==> r.Err? && r.error == ShapeMismatch(vectorLen, |t.value|))
  {
    var both := t.key + t.value;
    if AllFinite(t.key) && AllFinite(t.value) {
      forall x | x in both ensures x.Finite? {
        assert x in t.key || x in t.value;
      }
    } else {
      assert forall v: Vec :: !AllFinite(v) ==> exists i :: 0 <= i < |v| && !v[i].Finite?;
      var v := if AllFinite(t.key) then t.value else t.key;
      var i :| 0 <= i < |v| && !v[i].Finite?;
      assert v[i] in both;
    }
  }

  /** One more token moves the last `max` by one. */
  lemma LastOfGrows(h: seq<Token>, t: Token, max: nat)
    requires max > 0
    ensures LastOf(h + [t], max) == if |h| < max then LastOf(h, max) + [t] else LastOf(h, max)[1..] + [t]
  {
  }

  /** After any run the window is exactly the last `max` tokens accepted since the last clear, `seen`
      counts all of them, and each has the right shape and, in a compressed cache, is finite. */
  lemma {:induction false} WindowIsLastAccepted(max: nat, vectorLen: nat, compressed: bool, ops: seq<CacheOp>)
    requires max > 0
    ensures var w0 := Empty(max, vectorLen, compressed);
            Holds(ApplyAll(w0, ops), w0, Accepted(w0, ops))
  {
    var w0 := Empty(max, vectorLen, compressed);
    if ops != [] {
      var before := ops[..|ops| - 1];
      WindowIsLastAccepted(max, vectorLen, compressed, before);
      ApplyHolds(ApplyAll(w0, before), w0, Accepted(w0, before), ops[|ops| - 1]);
    }
  }

  /** A window read out of a ring: the physical slots, rotated so that the oldest comes first. */
  function Rotate(slots: seq<Token>, start: nat): (r: seq<Token>)
    requires start <= |slots|
    ensures |r| == |slots|
    ensures forall i :: 0 <= i < |r| ==> r[i] == slots[if start + i < |slots| then start + i else start + i - |slots|]
  {
    slots[start..] + slots[..start]
  }

  /** Overwriting the oldest slot and moving the start is "drop the head, then push". */
  lemma RotateOverwrite(slots: seq<Token>, start: nat, t: Token)
    requires start < |slots|
    ensures Rotate(slots[start := t], (start + 1) % |slots|) == Rotate(slots, start)[1..] + [t]
  {
    RingNext(start, |slots|);
    RotateNext(slots, start, t, if start + 1 == |slots| then 0 else start + 1);
  }

  lemma RingNext(start: nat, n: nat)
    requires start < n
    ensures (start + 1) % n == if start + 1 == n then 0 else start + 1
  {
  }

  lemma RotateNext(slots: seq<Token>, start: nat, t: Token, next: nat)
    requires start < |slots| && next == if start + 1 == |slots| then 0 else start + 1
    ensures Rotate(slots[start := t], next) == Rotate(slots, start)[1..] + [t]
  {
    var now := slots[start := t];
    assert slots[start..][1..] == slots[start + 1..] == now[start + 1..];
    assert now[..start + 1] == slots[..start] + [t];
    if next == 0 {
      assert now == now[..start + 1];
    }
  }
}

/** What caches over shared storage show, in terms of what was ever put into them. */
module SharedHistory {
  import opened TokenWindow
  import opened Shared

  /** The tokens accepted since the last clear, for every cache and prefix, through clones, captures and restores. */
  datatype Past = Past(caches: map<Name, seq<Token>>, prefixes: map<Name, seq<Token>>)

  function PastStep(a: Shown, h: Past, op: Op): Past {
    match op
    case New(c, max, vectorLen, _) => if max == 0 || vectorLen == 0 then h else h.(caches := h.caches[c := []])
    case Call(c, call) =>
      if c in a.caches && c in h.caches then h.(caches := h.caches[c := Accept(a.caches[c], h.caches[c], call)]) else h
    case Clone(src, dst) => if src in h.caches then h.(caches := h.caches[dst := h.caches[src]]) else h
    case Capture(c, p) => if c in h.caches then h.(prefixes := h.prefixes[p := h.caches[c]]) else h
    case Restore(p, c) => if p in h.prefixes then h.(caches := h.caches[c := h.prefixes[p]]) else h
    case DropCache(c) => h.(caches := h.caches - {c})
    case DropPrefix(p) => h.(prefixes := h.prefixes - {p})
  }

  function PastFrom(a: Shown, h: Past, ops: seq<Op>): Past
    decreases |ops|
  {
    if ops == [] then h else PastFrom(SpecStep(a, ops[0]).0, PastStep(a, h, ops[0]), ops[1..])
  }

  ghost predicate AllHold(windows: map<Name, Window>, pasts: map<Name, seq<Token>>) {
    windows.Keys == pasts.Keys && forall c :: c in windows ==> Holds(windows[c], windows[c], pasts[c])
  }

  lemma EmptyHolds(max: nat, vectorLen: nat, compressed: bool)
    requires max > 0
    ensures var w := Empty(max, vectorLen, compressed); Holds(w, w, [])
  {
  }

  lemma Updated(windows: map<Name, Window>, pasts: map<Name, seq<Token>>, c: Name, v: Window, h: seq<Token>)
    requires AllHold(windows, pasts) && Holds(v, v, h)
    ensures AllHold(windows[c := v], pasts[c := h])
  {
    hide Holds;
  }

  lemma Dropped(windows: map<Name, Window>, pasts: map<Name, seq<Token>>, c: Name)
    requires AllHold(windows, pasts)
    ensures AllHold(windows - {c}, pasts - {c})
  {
    hide Holds;
  }

  lemma Found(windows: map<Name, Window>, pasts: map<Name, seq<Token>>, c: Name)
    requires AllHold(windows, pasts)
    ensures c in windows <==> c in pasts
    ensures c in windows ==> Holds(windows[c], windows[c], pasts[c])
  {
  }

  lemma CallHolds(v: Window, h: seq<Token>, call: CacheOp)
    requires Holds(v, v, h)
    ensures var v' := Apply(v, call).0; Holds(v', v', Accept(v, h, call))
  {
    hide Apply, Accept;
    ApplyHolds(v, v, h, call);
  }

  lemma StepHolds(a: Shown, h: Past, op: Op)
    requires AllHold(a.caches, h.caches) && AllHold(a.prefixes, h.prefixes)
    ensures AllHold(SpecStep(a, op).0.caches, PastStep(a, h, op).caches)
    ensures AllHold(SpecStep(a, op).0.prefixes, PastStep(a, h, op).prefixes)
  {
    hide AllHold, Holds, Apply, Accept, Empty;
    match op {
      case New(c, max, vectorLen, compressed) =>
        if max > 0 && vectorLen > 0 {
          EmptyHolds(max, vectorLen, compressed);
          Updated(a.caches, h.caches, c, Empty(max, vectorLen, compressed), []);
        }
      case Call(c, call) =>
        Found(a.caches, h.caches, c);
        if c in a.caches {
          CallHolds(a.caches[c], h.caches[c], call);
          Updated(a.caches, h.caches, c, Apply(a.caches[c], call).0, Accept(a.caches[c], h.caches[c], call));
        }
      case Clone(src, dst) =>
        Found(a.caches, h.caches, src);
        if src in a.caches { Updated(a.caches, h.caches, dst, a.caches[src], h.caches[src]); }
      case Capture(c, p) =>
        Found(a.caches, h.caches, c);
        if c in a.caches { Updated(a.prefixes, h.prefixes, p, a.caches[c], h.caches[c]); }
      case Restore(p, c) =>
        Found(a.prefixes, h.prefixes, p);
        if p in a.prefixes { Updated(a.caches, h.caches, c, a.prefixes[p], h.prefixes[p]); }
      case DropCache(c) => Dropped(a.caches, h.caches, c);
      case DropPrefix(p) => Dropped(a.prefixes, h.prefixes, p);
    }
  }

  lemma {:induction false} RunHolds(a: Shown, h: Past, ops: seq<Op>)
    requires AllHold(a.caches, h.caches) && AllHold(a.prefixes, h.prefixes)
    ensures AllHold(SpecRunFrom(a, ops).caches, PastFrom(a, h, ops).caches)
    ensures AllHold(SpecRunFrom(a, ops).prefixes, PastFrom(a, h, ops).prefixes)
    decreases |ops|
  {
    hide AllHold, SpecStep, PastStep;
    if ops != [] {
      StepHolds(a, h, ops[0]);
      RunHolds(SpecStep(a, ops[0]).0, PastStep(a, h, ops[0]), ops[1..]);
    }
  }

  lemma StartIsEmpty()
    ensures Inv(Start) && Abstract(Start) == Shown(map[], map[])
  {
  }

  /** In every reachable state of any number of caches that share storage, every cache shows exactly the last
      `max` tokens accepted since its last clear, and has counted all of them; and so does every prefix. */
  lemma ReachableShowLastAccepted(ops: seq<Op>)
    ensures Inv(Start)
    ensures var shown, past := Abstract(RunFrom(Start, ops)), PastFrom(Abstract(Start), Past(map[], map[]), ops);
            && shown.caches.Keys == past.caches.Keys && shown.prefixes.Keys == past.prefixes.Keys
            && (forall c :: c in shown.caches ==>
                  && shown.caches[c].rows == LastOf(past.caches[c], shown.caches[c].max)
                  && shown.caches[c].seen == |past.caches[c]|)
            && (forall p :: p in shown.prefixes ==>
                shown.prefixes[p].rows == LastOf(past.prefixes[p], shown.prefixes[p].max))
  {
    StartIsEmpty();
    hide Inv, Abstract, SpecRunFrom, PastFrom, RunFrom;
    RunRefines(Start, ops);
    RunHolds(Abstract(Start), Past(map[], map[]), ops);
  }
}

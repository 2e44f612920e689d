/** The sweep phases (lgc.c:734-763, 956-961, 1026-1039): only dead objects are freed, and
    what the cursor has passed is back to the current white. */
module LuaSweep {
  import opened LuaHeap
  import opened LuaTricolour
  import opened LuaCollector
  import opened LuaCycle

  lemma {:induction false} PassedAt(pre: seq<Ref>, rest: seq<Ref>)
    requires NoDup(pre + rest)
    ensures Passed(pre + rest, CursorAt(pre, rest)) == pre
    ensures Ahead(pre + rest, CursorAt(pre, rest)) == rest
    decreases |pre|
  {
    var l := pre + rest;
    if rest == [] {
      assert l == pre;
    } else if pre == [] {
      assert l == rest;
    } else if |pre| == 1 {
      assert l[1..] == rest && l[0] == pre[0];
    } else {
      NoDupConcat(pre, rest);
      assert l == [pre[0]] + (pre[1..] + rest);
      NoDupConcat([pre[0]], pre[1..] + rest);
      assert pre[|pre| - 1] == pre[1..][|pre| - 2];
      assert pre[|pre| - 1] in pre[1..] + rest;
      assert l[1..] == pre[1..] + rest;
      PassedAt(pre[1..], rest);
    }
  }

  predicate Sweeping?(g: GCState) {
    g == SwpAllGc || g == SwpFinObj || g == SwpToBeFnz
  }

  lemma TargetFacts(s: State)
    requires Lists(s)
    ensures NoDup(SweepTarget(s)) && AllIn(s, SweepTarget(s))
    ensures NoDup(Passed(SweepTarget(s), s.sweepgc) + Ahead(SweepTarget(s), s.sweepgc))
    ensures NoDup(Ahead(SweepTarget(s), s.sweepgc)) && AllIn(s, Ahead(SweepTarget(s), s.sweepgc))
  {
    var l := SweepTarget(s);
    PassedAhead(l, s.sweepgc);
    NoDupConcat(Passed(l, s.sweepgc), Ahead(l, s.sweepgc));
  }

  /** `done` are the objects passed on the way from `s` to `t`. */
  ghost predicate SweepEffect(s: State, t: State, done: seq<Ref>) {
    && t == PutTarget(s.(heap := t.heap, sweepgc := t.sweepgc), SweepTarget(t))
    && (forall x :: x in done ==> x in SweepTarget(s))
    && (forall x :: x in t.heap <==> x in s.heap && !(x in done && Dead(s, x)))
    && (forall x :: x in t.heap ==>
          t.heap[x] == if x in done then s.heap[x].(colour := White(s.currentwhite)) else s.heap[x])
    && (forall x :: x in SweepTarget(t) <==> x in SweepTarget(s) && x in t.heap)
    && NoDup(SweepTarget(t)) && CursorIn(SweepTarget(t), t.sweepgc)
    && (forall x :: x in Passed(SweepTarget(t), t.sweepgc) ==>
          x in Passed(SweepTarget(s), s.sweepgc) || x in done)
  }

  lemma SweepSomeEffect(s: State, count: nat) returns (done: seq<Ref>)
    requires Lists(s) && Sweeping?(s.gcstate)
    ensures NoDup(Ahead(SweepTarget(s), s.sweepgc)) && AllIn(s, Ahead(SweepTarget(s), s.sweepgc))
    ensures SweepEffect(s, SweepSome(s, count), done)
  {
    TargetFacts(s);
    var l := SweepTarget(s);
    var pre, rest := Passed(l, s.sweepgc), Ahead(l, s.sweepgc);
    var n := if count < |rest| then count else |rest|;
    SweepListFacts(s.heap, s.currentwhite, pre, rest, count);
    var r := SweepList(s.heap, s.currentwhite, pre, rest, count);
    done := rest[..n];
    PassedAhead(l, s.sweepgc);
    EffectOfSweep(s, pre, rest, n, r);
  }

  lemma EffectOfSweep(s: State, pre: seq<Ref>, rest: seq<Ref>, n: nat, r: Sweeping)
    requires Sweeping?(s.gcstate) && SweepTarget(s) == pre + rest && pre == Passed(SweepTarget(s), s.sweepgc)
    requires AllIn(s, SweepTarget(s)) && NoDup(pre + rest) && n <= |rest|
    requires SweptTo(s.heap, s.currentwhite, pre, rest, n, r)
    ensures SweepEffect(s, PutTarget(s.(heap := r.heap, sweepgc := CursorAt(r.pre, r.rest)), r.pre + r.rest), rest[..n])
  {
    PassedAt(r.pre, r.rest);
    SweepEffectMembers(s, pre + rest, pre, rest, n, r);
    CursorAtIn(r.pre, r.rest);
    SweptDisjoint(s.heap, s.currentwhite, pre, rest, n, r);
    PutTargetFacts(s, r.heap, CursorAt(r.pre, r.rest), r.pre + r.rest);
  }

  lemma PutTargetFacts(s: State, h: map<Ref, Obj>, c: Cursor, l: seq<Ref>)
    requires Sweeping?(s.gcstate)
    ensures var t := PutTarget(s.(heap := h, sweepgc := c), l);
      && SweepTarget(t) == l && t.sweepgc == c && t.heap == h && t.currentwhite == s.currentwhite
      && t == PutTarget(s.(heap := t.heap, sweepgc := t.sweepgc), SweepTarget(t))
  {
  }

  lemma CursorAtIn(pre: seq<Ref>, rest: seq<Ref>)
    ensures CursorIn(pre + rest, CursorAt(pre, rest))
  {
  }

  lemma SweptDisjoint(h: map<Ref, Obj>, cw: bool, pre: seq<Ref>, rest: seq<Ref>, n: nat, r: Sweeping)
    requires NoDup(pre + rest) && n <= |rest| && SweptTo(h, cw, pre, rest, n, r)
    ensures forall x :: x in r.pre ==> x in pre || x in rest[..n]
    ensures forall x :: x in rest[..n] ==> x in pre + rest
  {
  }

  lemma SweepEffectMembers(s: State, l: seq<Ref>, pre: seq<Ref>, rest: seq<Ref>, n: nat, r: Sweeping)
    requires AllIn(s, l) && l == pre + rest && NoDup(pre + rest) && n <= |rest|
    requires SweptTo(s.heap, s.currentwhite, pre, rest, n, r)
    ensures forall x :: x in r.pre + r.rest <==> x in l && x in r.heap
  {
    NoDupConcat(pre, rest);
    assert rest == rest[..n] + rest[n..];
    NoDupConcat(rest[..n], rest[n..]);
    forall x ensures x in r.pre + r.rest <==> x in l && x in r.heap {
      assert x in rest <==> x in rest[..n] || x in rest[n..];
    }
  }

  /** Once inside a list the cursor does not go back to its header. */
  lemma SweptPast(s: State, count: nat)
    requires Lists(s) && Sweeping?(s.gcstate) && s.sweepgc.After?
    ensures NoDup(Ahead(SweepTarget(s), s.sweepgc)) && AllIn(s, Ahead(SweepTarget(s), s.sweepgc))
    ensures SweepSome(s, count).sweepgc != Header
  {
    TargetFacts(s);
    PassedSome(s.heap, s.currentwhite, SweepTarget(s), s.sweepgc.o, count);
  }

  lemma PassedSome(h: map<Ref, Obj>, cw: bool, l: seq<Ref>, o: Ref, count: nat)
    requires NoDup(Ahead(l, After(o))) && forall x :: x in Ahead(l, After(o)) ==> x in h
    ensures var r := SweepList(h, cw, Passed(l, After(o)), Ahead(l, After(o)), count); CursorAt(r.pre, r.rest) != Header
  {
    if Ahead(l, After(o)) != [] {
      assert Passed(l, After(o)) != [];
      PreGrows(h, cw, Passed(l, After(o)), Ahead(l, After(o)), count);
    }
  }

  lemma {:induction false} PreGrows(h: map<Ref, Obj>, cw: bool, pre: seq<Ref>, rest: seq<Ref>, count: nat)
    requires NoDup(rest) && (forall x :: x in rest ==> x in h) && pre != []
    ensures SweepList(h, cw, pre, rest, count).pre != []
    decreases |rest|
  {
    if rest != [] && count != 0 {
      assert [rest[0]] + rest[1..] == rest;
      NoDupConcat([rest[0]], rest[1..]);
      if h[rest[0]].colour == White(!cw) {
        PreGrows(h - {rest[0]}, cw, pre, rest[1..], count - 1);
      } else {
        PreGrows(h[rest[0] := h[rest[0]].(colour := White(cw))], cw, pre + [rest[0]], rest[1..], count - 1);
      }
    }
  }

  // ---------- the invariant across a sweep ----------

  lemma SweepAlive(s: State, t: State, done: seq<Ref>)
    requires SweepEffect(s, t, done) && t.currentwhite == s.currentwhite
    ensures forall x :: Alive(t, x) <==> Alive(s, x)
    ensures forall x :: Dead(t, x) ==> Dead(s, x)
  {
  }

  lemma SweepLive(s: State, t: State, done: seq<Ref>)
    requires SweepEffect(s, t, done) && LiveClosed(s) && ThreadsNotBlack(s)
    requires t.tobefnz == s.tobefnz || forall x :: x in t.tobefnz ==> x in s.tobefnz
    ensures LiveClosed(t) && ThreadsNotBlack(t)
  {
    SweepAlive(s, t, done);
    forall x | Alive(t, x) ensures LiveOut(t, x) {
      assert Alive(s, x) && LiveOut(s, x);
      assert t.heap[x].Out() == s.heap[x].Out();
    }
    forall x | IsRoot(t, x) ensures Alive(t, x) {
      assert IsRoot(s, x);
    }
    assert IsRoot(s, s.running);
  }

  lemma SweepFixed(s: State, t: State, done: seq<Ref>)
    requires SweepEffect(s, t, done) && Lists(s) && Sweeping?(s.gcstate) && FixedMarked(s)
    ensures FixedMarked(t) && forall x :: x in t.fixedgc ==> x in t.heap
  {
    forall x | x in s.fixedgc ensures x in t.heap && !IsWhite(t, x) {
      assert !IsWhite(s, x) && x !in done;
    }
  }

  /** What an object is does not change when it is swept. */
  lemma SweepKinds(s: State, t: State, done: seq<Ref>)
    requires SweepEffect(s, t, done)
    ensures forall x :: x in t.heap ==>
      x in s.heap && t.heap[x].finalized == s.heap[x].finalized && t.heap[x].kind == s.heap[x].kind
    ensures forall x :: x in s.heap && x !in SweepTarget(s) ==> x in t.heap
    ensures forall x :: x in SweepTarget(t) <==> x in SweepTarget(s) && x in t.heap
  {
  }

  lemma SweepLists(s: State, t: State, done: seq<Ref>)
    requires SweepEffect(s, t, done) && Lists(s) && Sweeping?(s.gcstate) && LiveClosed(s) && FixedMarked(s)
    ensures Lists(t) && FixedMarked(t)
  {
    SweepFixed(s, t, done);
    SweepKinds(s, t, done);
    TargetLists(s, t);
  }

  /** Dropping freed objects from the list that was swept keeps the lists in order. */
  lemma TargetLists(s: State, t: State)
    requires Lists(s) && Sweeping?(s.gcstate)
    requires t == PutTarget(s.(heap := t.heap, sweepgc := t.sweepgc), SweepTarget(t)) && NoDup(SweepTarget(t))
    requires forall x :: x in t.heap ==>
      x in s.heap && t.heap[x].finalized == s.heap[x].finalized && t.heap[x].kind == s.heap[x].kind
    requires forall x :: x in s.heap && x !in SweepTarget(s) ==> x in t.heap
    requires forall x :: x in SweepTarget(t) <==> x in SweepTarget(s) && x in t.heap
    ensures Lists(t)
  {
  }

  lemma SweepPhaseKept(s: State, t: State, done: seq<Ref>)
    requires SweepEffect(s, t, done) && Lists(s) && SweepPhase(s) && Sweeping?(s.gcstate)
    ensures SweepPhase(t)
  {
    SweepAlive(s, t, done);
    forall x | x in Passed(SweepTarget(t), t.sweepgc) ensures CurrentWhite(t, x) {
      PassedAhead(SweepTarget(t), t.sweepgc);
      assert x in SweepTarget(t);
    }
    assert forall x :: CurrentWhite(s, x) ==> CurrentWhite(t, x);
  }

  lemma SweepSomeInv(s: State, count: nat)
    requires Base(s) && SweepPhase(s) && Sweeping?(s.gcstate)
    ensures NoDup(Ahead(SweepTarget(s), s.sweepgc)) && AllIn(s, Ahead(SweepTarget(s), s.sweepgc))
    ensures Base(SweepSome(s, count)) && SweepPhase(SweepSome(s, count))
  {
    var done := SweepSomeEffect(s, count);
    var t := SweepSome(s, count);
    SweepLive(s, t, done);
    SweepLists(s, t, done);
    SweepPhaseKept(s, t, done);
  }

  /** A finished sweep of one list hands over to the next phase. */
  lemma NextPhase(s: State, g: GCState, c: Cursor)
    requires Base(s) && SweepPhase(s) && s.sweepgc == NoCursor
    requires (s.gcstate, g, c) in {(SwpAllGc, SwpFinObj, Header), (SwpFinObj, SwpToBeFnz, Header),
                                   (SwpToBeFnz, SwpEnd, NoCursor)}
    ensures Base(s.(gcstate := g, sweepgc := c)) && SweepPhase(s.(gcstate := g, sweepgc := c))
  {
    var t := s.(gcstate := g, sweepgc := c);
    assert NoneDead(s) by {
      forall x | x in s.heap ensures !Dead(s, x) {
        if s.gcstate == SwpAllGc && x in s.allgc { assert CurrentWhite(s, x); }
      }
    }
    SameBase(s, t);
    assert forall x :: CurrentWhite(s, x) ==> CurrentWhite(t, x);
    assert forall x :: x in t.heap ==> !Dead(t, x);
  }

  /** The phase after a sweep. */
  function NextSweep(g: GCState): GCState
    requires Sweeping?(g)
  {
    match g
    case SwpAllGc => SwpFinObj
    case SwpFinObj => SwpToBeFnz
    case SwpToBeFnz => SwpEnd
  }

  function NextCursor(g: GCState): Cursor {
    if g == SwpToBeFnz then NoCursor else Header
  }

  lemma SweepingStep(s: State)
    requires StepReady(s) && Sweeping?(s.gcstate) && !Lost(s)
    ensures NoDup(Ahead(SweepTarget(s), s.sweepgc)) && AllIn(s, Ahead(SweepTarget(s), s.sweepgc))
    ensures SingleStep(s) == SweepStep(s, NextSweep(s.gcstate), NextCursor(s.gcstate))
  {
  }

  lemma AwayParts(s: State)
    requires Lost(s) && NoDup(Ahead(s.allgc, s.sweepgc)) && AllIn(s, Ahead(s.allgc, s.sweepgc))
    ensures StepReady(s)
    ensures var w := SweepSome(s.(gcstate := SwpAllGc), GCSWEEPMAX);
      SingleStep(s) == w.(gcstate := if w.sweepgc == NoCursor then SwpEnd else SwpToBeFnz)
  {
  }

  lemma SweepStepParts(s: State, g: GCState, c: Cursor)
    requires NoDup(Ahead(SweepTarget(s), s.sweepgc)) && AllIn(s, Ahead(SweepTarget(s), s.sweepgc))
    ensures var s1 := if s.sweepgc != NoCursor then SweepSome(s, GCSWEEPMAX) else s;
      SweepStep(s, g, c) == if s1.sweepgc != NoCursor then s1 else s1.(gcstate := g, sweepgc := c)
  {
  }

  lemma SweepStepInv(s: State)
    requires Inv(s) && Sweeping?(s.gcstate)
    ensures StepReady(s) && Inv(SingleStep(s))
  {
    SweepSomeInv(s, GCSWEEPMAX);
    assert !Lost(s);
    SweepingStep(s);
    SweepStepParts(s, NextSweep(s.gcstate), NextCursor(s.gcstate));
    AfterSweep(if s.sweepgc != NoCursor then SweepSome(s, GCSWEEPMAX) else s);
  }

  lemma AfterSweep(s: State)
    requires Base(s) && SweepPhase(s) && Sweeping?(s.gcstate)
    ensures Inv(if s.sweepgc != NoCursor then s
            else s.(gcstate := NextSweep(s.gcstate), sweepgc := NextCursor(s.gcstate)))
  {
    if s.sweepgc == NoCursor { NextPhase(s, NextSweep(s.gcstate), NextCursor(s.gcstate)); }
  }

  /** entersweep may be called whenever only `allgc` holds dead objects. */
  lemma EnterSweepInv(s: State)
    requires Base(s) && DeadOnAllgc(s)
    ensures NoDup(s.allgc) && AllIn(s, s.allgc) && Base(EnterSweep(s)) && SweepPhase(EnterSweep(s))
    ensures EnterSweep(s).gcstate == SwpAllGc
  {
    var t := s.(gcstate := SwpAllGc, sweepgc := Header);
    SameBase(s, t);
    assert forall x :: Dead(t, x) ==> Dead(s, x);
    SweepSomeInv(t, 1);
  }

  lemma AllSwept(s: State)
    requires Base(s) && SweepPhase(s) && s.gcstate == SwpEnd
    ensures forall x :: x in s.heap && x != s.mainthread ==> x in s.fixedgc || CurrentWhite(s, x)
  {
  }

  lemma SwpEndInv(s: State)
    requires Inv(s) && s.gcstate == SwpEnd
    ensures StepReady(s) && Inv(SingleStep(s))
  {
    AllSwept(s);
    var t := SetColour(s, s.mainthread, White(s.currentwhite));
    WhitenMain(s, t);
    SameBase(t, t.(gcstate := CallFin));
  }

  lemma WhitenMain(s: State, t: State)
    requires Base(s) && t == SetColour(s, s.mainthread, White(s.currentwhite))
    requires forall x :: x in s.heap && x != s.mainthread ==> x in s.fixedgc || CurrentWhite(s, x)
    ensures Base(t) && AllWhite(t)
  {
    assert IsRoot(s, s.mainthread);
    forall x | Alive(t, x) ensures LiveOut(t, x) {
      assert Alive(s, x) && LiveOut(s, x);
      assert forall y :: Alive(s, y) ==> Alive(t, y);
    }
    forall x | IsRoot(t, x) ensures Alive(t, x) { assert IsRoot(s, x) && Alive(s, x); }
    assert forall x :: CurrentWhite(s, x) ==> CurrentWhite(t, x);
  }
}

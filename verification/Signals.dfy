// Signals by priority: c/signal.c and the SIGRETURN arm of c/disp.c.
module Signals {
  // The frames are the currentSig words on the stack of the process, the last one for the
  // handler that runs.

  import opened Bits

  const SIGNALS: nat := 32

  // ----- masks

  /** (m >> i) & 1 */
  predicate Has(m: nat, i: nat) {
    Shr(m, i) % 2 == 1
  }

  ghost predicate Mask(m: nat, s: set<nat>) {
    forall j: nat :: Has(m, j) <==> j in s
  }

  lemma {:induction false} SetBit(m: nat, i: nat, j: nat)
    requires !Has(m, i)
    ensures Has(m + Pow2(i), j) <==> j == i || Has(m, j)
    decreases i
  {
    if i == 0 {
      assert (m + 1) / 2 == m / 2;
    } else {
      assert Pow2(i) == 2 * Pow2(i - 1);
      assert (m + Pow2(i)) / 2 == m / 2 + Pow2(i - 1);
      if j > 0 {
        SetBit(m / 2, i - 1, j - 1);
      }
    }
  }

  lemma {:induction false} ClearBit(m: nat, i: nat, j: nat)
    requires Has(m, i)
    ensures m >= Pow2(i) && (Has(m - Pow2(i), j) <==> j != i && Has(m, j))
    decreases i
  {
    if i == 0 {
      assert (m - 1) / 2 == m / 2;
    } else {
      ClearBit(m / 2, i - 1, if j > 0 then j - 1 else 0);
      assert Pow2(i) == 2 * Pow2(i - 1);
      assert (m - Pow2(i)) / 2 == m / 2 - Pow2(i - 1);
    }
  }

  lemma MaskAdd(m: nat, s: set<nat>, i: nat)
    requires Mask(m, s) && i !in s
    ensures Mask(m + Pow2(i), s + {i})
  {
    forall j: nat
      ensures Has(m + Pow2(i), j) <==> j in s + {i}
    {
      SetBit(m, i, j);
    }
  }

  lemma MaskRemove(m: nat, s: set<nat>, i: nat)
    requires Mask(m, s) && i in s
    ensures m >= Pow2(i) && Mask(m - Pow2(i), s - {i})
  {
    ClearBit(m, i, i);
    forall j: nat
      ensures Has(m - Pow2(i), j) <==> j in s - {i}
    {
      ClearBit(m, i, j);
    }
  }

  lemma {:induction false} SomeBit(x: nat)
    requires x > 0
    ensures exists j: nat :: Has(x, j)
  {
    if x % 2 == 1 {
      assert Has(x, 0);
    } else {
      SomeBit(x / 2);
      var j: nat :| Has(x / 2, j);
      assert Has(x, j + 1);
    }
  }

  lemma NoBits(m: nat, i: nat)
    requires forall j: nat :: Has(m, j) ==> j < i
    ensures Shr(m, i) == 0
  {
    if Shr(m, i) > 0 {
      SomeBit(Shr(m, i));
      var j: nat :| Has(Shr(m, i), j);
      ShrAdd(m, i, j);
      assert Has(m, i + j);
    }
  }

  lemma {:induction false} ShrSmall(x: nat, k: nat)
    requires x <= 1 && k > 0
    ensures Shr(x, k) == 0
  {
    if k <= 1 {
    } else {
      ShrSmall(x / 2, k - 1);
    }
  }

  /** The mask shifted by i tells whether its highest bit t is above i, at i or below. */
  lemma HighestBit(m: nat, t: nat, i: nat)
    requires Has(m, t) && forall j: nat :: Has(m, j) ==> j <= t
    ensures Shr(m, i) > 1 <==> i < t
    ensures Shr(m, i) == 1 <==> i == t
  {
    NoBits(m, t + 1);
    ShrAdd(m, t, 1);
    assert Shr(Shr(m, t), 1) == Shr(m, t) / 2;
    assert Shr(m, t) == 1;
    if i < t {
      ShrAdd(m, i, t - i);
      if Shr(m, i) <= 1 {
        ShrSmall(Shr(m, i), t - i);
      }
    } else if i > t {
      ShrAdd(m, t, i - t);
      ShrSmall(1, i - t);
    }
  }

  // ----- the states of one process

  /** Handlers that were started and not finished, the running one last, and the signals that wait. */
  datatype State = State(frames: seq<nat>, queued: set<nat>)

  function Top(f: seq<nat>): nat
    requires f != []
  {
    f[|f| - 1]
  }

  ghost predicate Increasing(f: seq<nat>) {
    forall i, j :: 0 <= i < j < |f| ==> f[i] < f[j]
  }

  /** Handlers are interrupted by higher signals only, and nothing waits that could run. */
  ghost predicate Inv(s: State) {
    && Increasing(s.frames)
    && (forall i :: 0 <= i < |s.frames| ==> s.frames[i] < SIGNALS)
    && (forall q :: q in s.queued ==> s.frames != [] && q <= Top(s.frames))
  }

  /** signal */
  function OnSignal(s: State, installed: bool, sig: nat): State {
    if !installed then s
    else if s.frames == [] || Top(s.frames) < sig then s.(frames := s.frames + [sig])
    else if Top(s.frames) == sig then s
    else s.(queued := s.queued + {sig})
  }

  /** The highest signal below n in a set, or -1. */
  function Highest(q: set<nat>, n: nat): (h: int)
    ensures -1 <= h < n
    ensures h >= 0 ==> h in q
    ensures forall x :: x in q && x < n ==> x <= h
  {
    if n == 0 then -1 else if n - 1 in q then n - 1 else Highest(q, n - 1)
  }

  /** SIGRETURN */
  function OnReturn(s: State): State
    requires s.frames != []
  {
    var f := s.frames[..|s.frames| - 1];
    var h := Highest(s.queued, SIGNALS);
    if h >= 0 && (f == [] || Top(f) < h) then State(f + [h], s.queued - {h}) else State(f, s.queued)
  }

  lemma SignalKeeps(s: State, installed: bool, sig: nat)
    requires Inv(s) && sig < SIGNALS
    ensures Inv(OnSignal(s, installed, sig))
  {
  }

  lemma QueuedSmall(s: State, q: nat)
    requires Inv(s) && q in s.queued
    ensures q < SIGNALS
  {
  }

  lemma ReturnKeeps(s: State)
    requires Inv(s) && s.frames != []
    ensures Inv(OnReturn(s))
    ensures |OnReturn(s).frames| + |OnReturn(s).queued| + 1 == |s.frames| + |s.queued|
  {
    forall q | q in s.queued
      ensures q < SIGNALS
    {
      QueuedSmall(s, q);
    }
  }

  datatype Event = Signal(sig: nat) | Return

  predicate Possible(s: State, e: Event) {
    match e
    case Signal(sig) => sig < SIGNALS
    case Return => s.frames != []
  }

  function Step(s: State, installed: set<nat>, e: Event): State
    requires Possible(s, e)
  {
    match e
    case Signal(sig) => OnSignal(s, sig in installed, sig)
    case Return => OnReturn(s)
  }

  predicate CanRun(s: State, installed: set<nat>, es: seq<Event>)
    decreases |es|
  {
    es == [] || (Possible(s, es[0]) && CanRun(Step(s, installed, es[0]), installed, es[1..]))
  }

  function Run(s: State, installed: set<nat>, es: seq<Event>): State
    requires CanRun(s, installed, es)
    decreases |es|
  {
    if es == [] then s else Run(Step(s, installed, es[0]), installed, es[1..])
  }

  const IDLE := State([], {})

  /** In every state that signals and returns can lead to. */
  lemma {:induction false} RunKeeps(s: State, installed: set<nat>, es: seq<Event>)
    requires Inv(s) && CanRun(s, installed, es)
    ensures Inv(Run(s, installed, es))
    decreases |es|
  {
    if es == [] {
    } else {
      match es[0] {
        case Signal(sig) => SignalKeeps(s, sig in installed, sig);
        case Return => ReturnKeeps(s);
      }
      RunKeeps(Step(s, installed, es[0]), installed, es[1..]);
    }
  }

  // ----- what runs when no more signals come

  /** The handlers in the order in which they finish. */
  ghost function Handlers(s: State): seq<nat>
    requires Inv(s)
    decreases |s.frames| + |s.queued|
  {
    if s.frames == [] then [] else
    ReturnKeeps(s);
    [Top(s.frames)] + Handlers(OnReturn(s))
  }

  ghost predicate NonIncreasing(f: seq<nat>) {
    forall i, j :: 0 <= i < j < |f| ==> f[i] >= f[j]
  }

  lemma TopFalls(s: State)
    requires Inv(s) && s.frames != [] && OnReturn(s).frames != []
    ensures Top(OnReturn(s).frames) <= Top(s.frames)
  {
  }

  lemma ReturnMoves(s: State)
    requires Inv(s) && s.frames != []
    ensures multiset(s.frames) + multiset(s.queued) ==
      multiset{Top(s.frames)} + multiset(OnReturn(s).frames) + multiset(OnReturn(s).queued)
  {
    var f := s.frames[..|s.frames| - 1];
    assert s.frames == f + [Top(s.frames)];
    var h := Highest(s.queued, SIGNALS);
    if h >= 0 && (f == [] || Top(f) < h) {
      assert multiset(s.queued) == multiset(s.queued - {h}) + multiset{h};
    }
  }

  /** Handlers finish in the order of their signals, highest first; every one that was started or
      waits finishes, once for each time. */
  lemma {:induction false} HandlersInOrder(s: State)
    requires Inv(s)
    ensures NonIncreasing(Handlers(s))
    ensures s.frames != [] ==> Bounded(Handlers(s), Top(s.frames))
    ensures multiset(Handlers(s)) == multiset(s.frames) + multiset(s.queued)
    decreases |s.frames| + |s.queued|
  {
    hide Inv, OnReturn, NonIncreasing, Bounded;
    HandlersAre(s);
    if s.frames == [] {
      NothingWaits(s);
      NonIncreasingEmpty();
    } else {
      ReturnKeeps(s);
      var s' := OnReturn(s);
      HandlersInOrder(s');
      ReturnMoves(s);
      HandlersAre(s');
      if s'.frames != [] {
        TopFalls(s);
        Prepend(Top(s.frames), Handlers(s'), Top(s'.frames));
      } else {
        Prepend(Top(s.frames), [], 0);
      }
    }
  }

  ghost predicate Bounded(f: seq<nat>, t: nat) {
    forall i :: 0 <= i < |f| ==> f[i] <= t
  }

  lemma Prepend(x: nat, f: seq<nat>, t: nat)
    requires NonIncreasing(f) && Bounded(f, t) && (f != [] ==> t <= x)
    ensures NonIncreasing([x] + f) && Bounded([x] + f, x)
    ensures multiset([x] + f) == multiset{x} + multiset(f)
  {
  }

  lemma NonIncreasingEmpty()
    ensures NonIncreasing([]) && Bounded([], 0)
  {
  }

  lemma HandlersAre(s: State)
    requires Inv(s)
    ensures s.frames == [] ==> Handlers(s) == []
    ensures s.frames != [] ==> Inv(OnReturn(s)) && Handlers(s) == [Top(s.frames)] + Handlers(OnReturn(s))
  {
    if s.frames != [] {
      ReturnKeeps(s);
    }
  }

  lemma NothingWaits(s: State)
    requires Inv(s) && s.frames == []
    ensures s.queued == {}
  {
  }

  /** And then the process is back where no handler runs and nothing waits. */
  ghost function Settle(s: State): State
    requires Inv(s)
    decreases |s.frames| + |s.queued|
  {
    if s.frames == [] then s else
    ReturnKeeps(s);
    Settle(OnReturn(s))
  }

  lemma {:induction false} SettlesIdle(s: State)
    requires Inv(s)
    ensures Settle(s) == IDLE
    decreases |s.frames| + |s.queued|
  {
    if s.frames == [] {
      assert s.queued == {};
    } else {
      ReturnKeeps(s);
      SettlesIdle(OnReturn(s));
    }
  }

  /** A burst of signals. */
  function Burst(s: State, installed: set<nat>, sigs: seq<nat>): State
    decreases |sigs|
  {
    if sigs == [] then s else Burst(OnSignal(s, sigs[0] in installed, sigs[0]), installed, sigs[1..])
  }

  lemma {:induction false} BurstKeeps(s: State, installed: set<nat>, sigs: seq<nat>)
    requires Inv(s) && forall g :: g in sigs ==> g < SIGNALS
    ensures var s' := Burst(s, installed, sigs);
      && Inv(s')
      && forall g :: (g in s'.frames || g in s'.queued) <==> (g in s.frames || g in s.queued || (g in sigs && g in installed))
    decreases |sigs|
  {
    if sigs == [] {
    } else {
      var s1 := OnSignal(s, sigs[0] in installed, sigs[0]);
      assert sigs[0] in sigs;
      SignalKeeps(s, sigs[0] in installed, sigs[0]);
      assert forall g :: (g in s1.frames || g in s1.queued) <==> (g in s.frames || g in s.queued || (g == sigs[0] && g in installed));
      assert forall g :: g in sigs <==> g == sigs[0] || g in sigs[1..];
      BurstKeeps(s1, installed, sigs[1..]);
    }
  }

  /** Every installed signal of a burst is handled, and nothing else is. */
  lemma BurstHandled(installed: set<nat>, sigs: seq<nat>, g: nat)
    requires forall x :: x in sigs ==> x < 32
    ensures var s := Burst(IDLE, installed, sigs);
      Inv(s) && NonIncreasing(Handlers(s)) && Settle(s) == IDLE && (g in Handlers(s) <==> g in sigs && g in installed)
  {
    BurstKeeps(IDLE, installed, sigs);
    var s := Burst(IDLE, installed, sigs);
    HandlersInOrder(s);
    SettlesIdle(s);
    assert g in Handlers(s) <==> g in multiset(Handlers(s));
    assert g in s.frames <==> g in multiset(s.frames);
  }

  /** A signal is handled once more, unless its handler is the one that runs or it waits already. */
  lemma SignalAdds(s: State, sig: nat)
    requires Inv(s) && sig < 32
    ensures var s' := OnSignal(s, true, sig);
      && Inv(s') && OnSignal(s, false, sig) == s
      && multiset(Handlers(s')) == multiset(Handlers(s)) +
           if (s.frames != [] && s.frames[|s.frames| - 1] == sig) || sig in s.queued then multiset{} else multiset{sig}
  {
    var s' := OnSignal(s, true, sig);
    SignalKeeps(s, true, sig);
    HandlersInOrder(s);
    HandlersInOrder(s');
    hide Handlers, Inv, NonIncreasing;
    SignalCases(s, true, sig);
    TopWaits(s);
  }

  lemma TopWaits(s: State)
    requires Inv(s)
    ensures forall q :: q in s.queued ==> s.frames != [] && q <= Top(s.frames)
  {
  }

  /** It starts at once exactly if no handler of a signal as high or higher was started. */
  lemma StartsAtOnce(s: State, sig: nat)
    requires Inv(s) && sig < 32
    ensures var s' := OnSignal(s, true, sig);
      if forall f :: f in s.frames ==> f < sig then s'.frames == s.frames + [sig] && s'.queued == s.queued
      else s'.frames == s.frames
  {
    SignalCases(s, true, sig);
    if s.frames != [] {
      assert Top(s.frames) in s.frames;
    }
  }

  /** When a handler finishes, the highest waiting signal h starts if it is above the handler that was
      interrupted, and otherwise that one goes on. */
  lemma ReturnStarts(s: State, f: seq<nat>, top: nat, h: nat)
    requires Inv(s) && s.frames == f + [top] && h in s.queued && forall q :: q in s.queued ==> q <= h
    ensures OnReturn(s) ==
      if forall x :: x in f ==> x < h then State(f + [h], s.queued - {h}) else State(f, s.queued)
  {
    FromTop(s);
    assert s.frames[..|s.frames| - 1] == f;
    QueuedSmall(s, h);
    assert Highest(s.queued, SIGNALS) == h;
    if f != [] {
      assert Top(f) in f;
    }
    hide OnReturn, Highest;
  }

  // ----- the masks of a process

  ghost function ToSet(f: seq<nat>): set<nat> {
    set x | x in f
  }

  class Process {
    var sigMaskInstalled: nat
    var sigMaskOnStack: nat
    var sigMaskQueued: nat
    var frames: seq<nat>
    ghost var queued: set<nat>

    ghost function Now(): State
      reads this
    {
      State(frames, queued)
    }

    /** The masks are the sets of started and of waiting signals. */
    ghost predicate Masks()
      reads this
    {
      && Increasing(frames) && (forall i :: 0 <= i < |frames| ==> frames[i] < SIGNALS)
      && Mask(sigMaskOnStack, ToSet(frames))
      && Mask(sigMaskQueued, queued)
      && forall q :: q in queued ==> Has(sigMaskInstalled, q)
    }

    ghost predicate Valid()
      reads this
    {
      Masks() && Inv(Now())
    }

    /** signal; the state of the process and the words below the frame are not part of this model. */
    method Signal(sig: nat)
      requires Masks() && sig < 32
      modifies `sigMaskOnStack, `sigMaskQueued, `frames, `queued
      ensures Masks() && Now() == OnSignal(old(Now()), Has(sigMaskInstalled, sig), sig)
      ensures old(Valid()) ==> Valid()
    {
      hide Inv, Mask, Increasing, OnSignal, ToSet;
      ghost var s := Now();
      if Inv(s) {
        SignalKeeps(s, Has(sigMaskInstalled, sig), sig);
      }
      SignalCases(s, Has(sigMaskInstalled, sig), sig);
      if Shr(sigMaskInstalled, sig) % 2 == 0 {
        return;
      }
      StackTop(sigMaskOnStack, frames, sig);
      MaskHas(sigMaskQueued, queued, sig);
      if Shr(sigMaskOnStack, sig) > 1 {
        if Shr(sigMaskQueued, sig) % 2 != 1 {
          MaskAdd(sigMaskQueued, queued, sig);
          sigMaskQueued := sigMaskQueued + Shl(1, sig);
        } else {
          assert queued + {sig} == queued;
        }
        queued := queued + {sig};
        return;
      } else if Shr(sigMaskOnStack, sig) == 1 {
        return;
      }
      MaskAdd(sigMaskOnStack, ToSet(frames), sig);
      OneMore(frames, sig);
      sigMaskOnStack := sigMaskOnStack + Shl(1, sig);
      frames := frames + [sig];
    }

    /** The SIGRETURN arm: the running handler has finished. */
    method SigReturn() returns (lastSig: nat)
      requires Valid() && frames != []
      modifies `sigMaskOnStack, `sigMaskQueued, `frames, `queued
      ensures Valid() && Now() == OnReturn(old(Now())) && lastSig == Top(old(frames))
    {
      hide Inv, Mask, Increasing, Has, OnReturn, OnSignal, Highest, ToSet;
      ghost var s := Now();
      ReturnKeeps(s);
      Finish(s, sigMaskOnStack);
      lastSig := frames[|frames| - 1];
      sigMaskOnStack := sigMaskOnStack - Shl(1, lastSig);
      frames := frames[..|frames| - 1];
      FromTop(s);
      var i: int := Find();
      if i < 0 {
        return;
      }
      MaskHas(sigMaskQueued, queued, i);
      StackTop(sigMaskOnStack, frames, i);
      if Shr(sigMaskOnStack, i) > 0 {
        return;
      }
      MaskRemove(sigMaskQueued, queued, i);
      sigMaskQueued := sigMaskQueued - Shl(1, i);
      queued := queued - {i};
      SignalIs(s, i);
      Signal(i);
    }

    /** The loop of SIGRETURN: the highest signal that waits, or -1. */
    method Find() returns (i: int)
      requires Mask(sigMaskQueued, queued)
      ensures i == Highest(queued, SIGNALS)
    {
      i := 31;
      while i >= 0
        invariant -1 <= i < SIGNALS
        invariant Highest(queued, SIGNALS) == Highest(queued, i + 1)
      {
        if Shr(sigMaskQueued, i) % 2 == 1 {
          assert Has(sigMaskQueued, i);
          return;
        }
        assert !Has(sigMaskQueued, i);
        i := i - 1;
      }
    }
  }

  lemma SignalCases(s: State, installed: bool, sig: nat)
    ensures OnSignal(s, installed, sig) ==
      if !installed then s
      else if s.frames == [] || Top(s.frames) < sig then State(s.frames + [sig], s.queued)
      else if Top(s.frames) == sig then s
      else State(s.frames, s.queued + {sig})
  {
  }

  lemma OneMore(f: seq<nat>, x: nat)
    requires Increasing(f) && (f != [] ==> Top(f) < x)
    ensures ToSet(f + [x]) == ToSet(f) + {x} && Increasing(f + [x])
  {
  }

  lemma MaskHas(m: nat, q: set<nat>, i: nat)
    requires Mask(m, q)
    ensures Has(m, i) <==> i in q
  {
  }

  /** The highest frame goes. */
  lemma Finish(s: State, m: nat)
    requires Inv(s) && s.frames != [] && Mask(m, ToSet(s.frames))
    ensures var f := s.frames[..|s.frames| - 1]; var t := Top(s.frames);
      && t == s.frames[|s.frames| - 1] && m >= Pow2(t) && Mask(m - Pow2(t), ToSet(f)) && Increasing(f)
      && forall i :: 0 <= i < |f| ==> f[i] < SIGNALS
  {
    assert Top(s.frames) in ToSet(s.frames);
    MaskRemove(m, ToSet(s.frames), Top(s.frames));
    LastLeaves(s.frames);
  }

  lemma FromTop(s: State)
    requires s.frames != []
    ensures var f := s.frames[..|s.frames| - 1]; var h := Highest(s.queued, SIGNALS);
      && -1 <= h < SIGNALS && (h >= 0 ==> h in s.queued)
      && OnReturn(s) == if h >= 0 && (f == [] || Top(f) < h) then State(f + [h], s.queued - {h}) else State(f, s.queued)
  {
  }

  lemma SignalIs(s: State, h: nat)
    requires s.frames != []
    ensures var f := s.frames[..|s.frames| - 1];
      f == [] || Top(f) < h ==> OnSignal(State(f, s.queued - {h}), true, h) == State(f + [h], s.queued - {h})
  {
  }

  lemma StackTop(m: nat, f: seq<nat>, i: nat)
    requires Mask(m, ToSet(f)) && Increasing(f)
    ensures Shr(m, i) > 1 <==> f != [] && i < Top(f)
    ensures Shr(m, i) == 1 <==> f != [] && i == Top(f)
    ensures f != [] && i > Top(f) ==> i !in ToSet(f)
    ensures Shr(m, i) == 0 ==> i !in ToSet(f)
  {
    if f == [] {
      NoBits(m, i);
    } else {
      assert Top(f) in ToSet(f);
      HighestBit(m, Top(f), i);
    }
  }

  lemma LastLeaves(f: seq<nat>)
    requires Increasing(f) && f != []
    ensures ToSet(f) - {Top(f)} == ToSet(f[..|f| - 1]) && Increasing(f[..|f| - 1])
  {
    assert f == f[..|f| - 1] + [Top(f)];
  }
}

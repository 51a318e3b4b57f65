/**
 Shared vocabulary: optional values, results, and logs of attempted I/O.

 Every write to a socket and every send to an application can fail.  The environment decides which
 attempts fail through a fault oracle: `faults(n)` is the failure of the n-th attempt, or `None`.
 */
module Prelude {

  newtype byte = x: int | 0 <= x < 0x100
  newtype u16 = x: int | 0 <= x < 0x1_0000
  newtype usize = x: int | 0 <= x < 0x1_0000_0000_0000_0000

  /** No Rust allocation is longer than `isize::MAX` bytes. */
  const MAX_BUFFER: nat := 0x7FFF_FFFF_FFFF_FFFF

  /** The contents of a `bytes::Bytes` buffer, or of a `String` as its UTF-8 bytes. */
  type Bytes = b: seq<byte> | |b| <= MAX_BUFFER

  type Pos = n: nat | n > 0 witness 1

  datatype Option<+T> = None | Some(value: T)

  datatype Result<+T, +E> = Ok(value: T) | Err(error: E)

  /** One attempted write or send, and whether it went through. */
  datatype Attempt<+T> = Attempt(item: T, ok: bool)

  /** One more attempt of which the oracle decides: the log it leaves, and its result. */
  function Tried<T, E>(faults: nat -> Option<E>, log: seq<Attempt<T>>, item: T): (seq<Attempt<T>>, Result<(), E>) {
    match faults(|log|)
    case None => (log + [Attempt(item, true)], Ok(()))
    case Some(e) => (log + [Attempt(item, false)], Err(e))
  }

  function Last<T>(s: seq<T>): T
    requires s != []
  {
    s[|s| - 1]
  }

  function DropLast<T>(s: seq<T>): seq<T>
    requires s != []
  {
    s[..|s| - 1]
  }

  lemma TakeSnoc<T>(s: seq<T>, k: nat)
    requires 0 < k <= |s|
    ensures s[..k] == s[..k - 1] + [s[k - 1]]
  {
  }

  function Flatten<T>(parts: seq<seq<T>>): seq<T> {
    if parts == [] then [] else parts[0] + Flatten(parts[1..])
  }

  lemma FlattenCons<T>(x: seq<T>, rest: seq<seq<T>>)
    ensures Flatten([x] + rest) == x + Flatten(rest)
  {
    assert ([x] + rest)[1..] == rest;
  }

  lemma {:induction false} FlattenAppend<T>(a: seq<seq<T>>, b: seq<seq<T>>)
    ensures Flatten(a + b) == Flatten(a) + Flatten(b)
  {
    if a == [] {
      assert a + b == b;
    } else {
      FlattenAppend(a[1..], b);
      FlattenCons(a[0], a[1..] + b);
      assert [a[0]] + (a[1..] + b) == a + b;
    }
  }

  lemma FlattenSnoc<T>(a: seq<seq<T>>, x: seq<T>)
    ensures Flatten(a + [x]) == Flatten(a) + x
  {
    FlattenAppend(a, [x]);
  }

  /** How many of `count` attempts, numbered from `start`, go through before the first one that fails. */
  function FirstFault<E>(faults: nat -> Option<E>, start: nat, count: nat): (k: nat)
    ensures k <= count
    ensures forall i: nat :: start <= i < start + k ==> faults(i).None?
    ensures k < count ==> faults(start + k).Some?
    decreases count
  {
    if count == 0 || faults(start).Some? then 0 else 1 + FirstFault(faults, start + 1, count - 1)
  }

  /** The failure that ends a batch of `count` attempts numbered from `start`, if there is one. */
  function Failure<E>(faults: nat -> Option<E>, start: nat, count: nat): (e: Option<E>)
    decreases count
  {
    if count == 0 then None
    else if faults(start).Some? then faults(start)
    else Failure(faults, start + 1, count - 1)
  }

  lemma {:induction false} FailureAtFirstFault<E>(faults: nat -> Option<E>, start: nat, count: nat, k: nat)
    requires k == FirstFault(faults, start, count)
    ensures Failure(faults, start, count) == if k < count then faults(start + k) else None
    decreases count
  {
    if k > 0 {
      FailureAtFirstFault(faults, start + 1, count - 1, k - 1);
      assert start + 1 + (k - 1) == start + k;
    }
  }

  lemma {:induction false} FailureSplit<E>(faults: nat -> Option<E>, start: nat, m: nat, n: nat)
    requires Failure(faults, start, m) == None
    ensures Failure(faults, start, m + n) == Failure(faults, start + m, n)
    decreases m
  {
    if m > 0 {
      FailureSplit(faults, start + 1, m - 1, n);
    }
  }

  lemma {:induction false} FirstFaultSplit<E>(faults: nat -> Option<E>, start: nat, m: nat, n: nat)
    requires Failure(faults, start, m) == None
    ensures FirstFault(faults, start, m + n) == m + FirstFault(faults, start + m, n)
    decreases m
  {
    if m > 0 {
      FirstFaultSplit(faults, start + 1, m - 1, n);
    }
  }

  /** `log` continued by attempting `items` in order and giving up after the first failure. */
  function Extend<T, E>(faults: nat -> Option<E>, log: seq<Attempt<T>>, items: seq<T>): (log': seq<Attempt<T>>)
    ensures |log| <= |log'|
    decreases |items|
  {
    if items == [] then log
    else if faults(|log|).None? then Extend(faults, log + [Attempt(items[0], true)], items[1..])
    else log + [Attempt(items[0], false)]
  }

  lemma ExtendOne<T, E>(faults: nat -> Option<E>, log: seq<Attempt<T>>, item: T)
    ensures Extend(faults, log, [item]) == log + [Attempt(item, faults(|log|).None?)]
  {
  }

  lemma {:induction false} ExtendLength<T, E>(faults: nat -> Option<E>, log: seq<Attempt<T>>, items: seq<T>)
    requires Failure(faults, |log|, |items|) == None
    ensures |Extend(faults, log, items)| == |log| + |items|
    decreases |items|
  {
    if items != [] {
      ExtendLength(faults, log + [Attempt(items[0], true)], items[1..]);
    }
  }

  /** Extending a log keeps it and adds nothing but the items asked for. */
  lemma {:induction false} ExtendKeeps<T, E>(faults: nat -> Option<E>, log: seq<Attempt<T>>, items: seq<T>)
    ensures var log' := Extend(faults, log, items);
            log'[..|log|] == log && forall i :: |log| <= i < |log'| ==> log'[i].item in items
    decreases |items|
  {
    if items != [] && faults(|log|).None? {
      var log1 := log + [Attempt(items[0], true)];
      ExtendKeeps(faults, log1, items[1..]);
    }
  }

  /** What a batch adds to the log is attempts at its items, in order, from the first one on. */
  lemma {:induction false} ExtendInOrder<T, E>(faults: nat -> Option<E>, log: seq<Attempt<T>>, items: seq<T>)
    ensures var log' := Extend(faults, log, items);
            && |log'| <= |log| + |items|
            && forall i :: |log| <= i < |log'| ==> log'[i].item == items[i - |log|]
    decreases |items|
  {
    ExtendKeeps(faults, log, items);
    if items != [] && faults(|log|).None? {
      var log1 := log + [Attempt(items[0], true)];
      ExtendInOrder(faults, log1, items[1..]);
      ExtendKeeps(faults, log1, items[1..]);
      assert Extend(faults, log, items)[..|log1|][|log|] == log1[|log|];
    }
  }

  /** Two batches attempted one after the other are one longer batch, provided the first had no failure. */
  lemma {:induction false} ExtendTwice<T, E>(faults: nat -> Option<E>, log: seq<Attempt<T>>, a: seq<T>, b: seq<T>)
    requires Failure(faults, |log|, |a|) == None
    ensures Extend(faults, Extend(faults, log, a), b) == Extend(faults, log, a + b)
    decreases |a|
  {
    if a == [] {
      assert a + b == b;
    } else {
      ExtendTwice(faults, log + [Attempt(a[0], true)], a[1..], b);
      assert (a + b)[1..] == a[1..] + b;
    }
  }

  /** What got through: the items whose attempt succeeded, in order. */
  function Arrived<T>(log: seq<Attempt<T>>): seq<T> {
    if log == [] then []
    else Arrived(DropLast(log)) + if Last(log).ok then [Last(log).item] else []
  }

  lemma ArrivedSnoc<T>(log: seq<Attempt<T>>, a: Attempt<T>)
    ensures Arrived(log + [a]) == Arrived(log) + if a.ok then [a.item] else []
  {
  }

  lemma TakeCons<T>(s: seq<T>, k: nat)
    requires k < |s|
    ensures s[..k + 1] == [s[0]] + s[1..][..k]
  {
  }

  /** Exactly the items before the first failure arrive. */
  lemma {:induction false} ArrivedExtend<T, E>(faults: nat -> Option<E>, log: seq<Attempt<T>>, items: seq<T>)
    ensures Arrived(Extend(faults, log, items)) == Arrived(log) + items[..FirstFault(faults, |log|, |items|)]
    decreases |items|
  {
    if items != [] {
      if faults(|log|).None? {
        var log1 := log + [Attempt(items[0], true)];
        ArrivedExtend(faults, log1, items[1..]);
        ArrivedSnoc(log, Attempt(items[0], true));
        var k := FirstFault(faults, |log1|, |items[1..]|);
        TakeCons(items, k);
      } else {
        ArrivedSnoc(log, Attempt(items[0], false));
      }
    }
  }

  /** A batch without a failure arrives whole. */
  lemma AllArrive<T, E>(faults: nat -> Option<E>, log: seq<Attempt<T>>, items: seq<T>)
    requires Failure(faults, |log|, |items|) == None
    ensures Arrived(Extend(faults, log, items)) == Arrived(log) + items
  {
    ArrivedExtend(faults, log, items);
    FailureAtFirstFault(faults, |log|, |items|, FirstFault(faults, |log|, |items|));
    assert items[..|items|] == items;
  }
}

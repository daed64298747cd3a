/** The staleness queue: which targets must be recompiled before an output
    (a binary or a library) is linked. The set is kept as a strictly ascending
    sequence, which is what iterating an ordered set yields. */
module Staleness {
  import opened Paths
  import opened Project

  /** Strictly ascending in target order; hence free of duplicates. */
  predicate StrictlyAscending(s: seq<Target>)
  {
    forall i, j :: 0 <= i < j < |s| ==> TargetLess(s[i], s[j])
  }

  lemma AscendingHasNoDuplicates(s: seq<Target>, i: int, j: int)
    requires StrictlyAscending(s)
    requires 0 <= i < |s| && 0 <= j < |s| && i != j
    ensures s[i] != s[j]
  {
    if i < j {
      TargetLessIrreflexive(s[i]);
    } else {
      TargetLessIrreflexive(s[j]);
    }
  }

  /** Ordered-set insertion: `t` is added at its place unless already present. */
  function Insert(s: seq<Target>, t: Target): (r: seq<Target>)
    requires StrictlyAscending(s)
    ensures StrictlyAscending(r)
    ensures forall x :: x in r <==> x in s || x == t
    decreases |s|
  {
    if s == [] then [t]
    else if t == s[0] then s
    else if TargetLess(t, s[0]) then
      assert forall j :: 0 <= j < |s| ==> TargetLess(t, s[j]) by {
        forall j | 0 < j < |s| ensures TargetLess(t, s[j]) {
          TargetLessTransitive(t, s[0], s[j]);
        }
      }
      [t] + s
    else
      var rest := Insert(s[1..], t);
      TargetLessTotal(t, s[0]);
      assert forall x :: x in rest ==> TargetLess(s[0], x);
      [s[0]] + rest
  }

  /** The ascending enumeration of a finite set of targets. */
  ghost function SortedOf(s: set<Target>): (r: seq<Target>)
    ensures StrictlyAscending(r)
    ensures forall x :: x in r <==> x in s
  {
    if s == {} then []
    else
      var x :| x in s;
      Insert(SortedOf(s - {x}), x)
  }

  /** Two strictly ascending sequences with the same elements are equal: the
      order of the queue is determined by its contents. */
  lemma {:induction false} AscendingUnique(a: seq<Target>, b: seq<Target>)
    requires StrictlyAscending(a) && StrictlyAscending(b)
    requires forall x :: x in a <==> x in b
    ensures a == b
    decreases |a|
  {
    if a != [] {
      assert a[0] in b;
    }
    if b != [] {
      assert b[0] in a;
    }
    if a != [] && b != [] {
      if a[0] != b[0] {
        assert b[0] in a && a[0] in b;
        var i :| 0 <= i < |a| && a[i] == b[0];
        var j :| 0 <= j < |b| && b[j] == a[0];
        TargetLessAsymmetric(a[0], b[0]);
        assert false;
      }
      forall x ensures x in a[1..] <==> x in b[1..] {
        if x in a[1..] {
          var i :| 1 <= i < |a| && a[i] == x;
          AscendingHasNoDuplicates(a, 0, i);
          assert x in b;
          var j :| 0 <= j < |b| && b[j] == x;
          assert j != 0;
        }
        if x in b[1..] {
          var j :| 1 <= j < |b| && b[j] == x;
          AscendingHasNoDuplicates(b, 0, j);
          assert x in a;
          var i :| 0 <= i < |a| && a[i] == x;
          assert i != 0;
        }
      }
      AscendingUnique(a[1..], b[1..]);
      assert a == [a[0]] + a[1..] && b == [b[0]] + b[1..];
    }
  }

  /** Whether `t`, whose source was modified at `srcTime`, must be compiled
      before `output` is rebuilt. Only meaningful when the output's time is known. */
  predicate Stale(fs: FileSystem, output: Path, t: Target, srcTime: Time)
  {
    if output in fs
    then (fs[output].Some? && srcTime > fs[output].value) || t.objectFile !in fs
    else t.objectFile !in fs
  }

  /** The staleness queue of `output`. Reading the output's modification time
      fails (an I/O error) when the output exists, its time cannot be read and
      there is at least one target to compare against it. */
  ghost function ObjectQueue(fs: FileSystem, output: Path, fileModMap: map<Target, Time>): (r: Result<seq<Target>>)
    ensures r.Err? <==> output in fs && fs[output].None? && |fileModMap| > 0
    ensures r.Err? ==> r.error == Io
    ensures r.Ok? ==> StrictlyAscending(r.value)
    ensures r.Ok? && output in fs && fs[output].Some? ==>
              forall t :: t in r.value <==>
                t in fileModMap && (fileModMap[t] > fs[output].value || t.objectFile !in fs)
    ensures r.Ok? && output in fs && fs[output].None? ==> r.value == []
    ensures r.Ok? && output !in fs ==>
              forall t :: t in r.value <==> t in fileModMap && t.objectFile !in fs
  {
    if output in fs && fs[output].None? && |fileModMap| > 0 then Err(Io)
    else Ok(SortedOf(set t | t in fileModMap && Stale(fs, output, t, fileModMap[t])))
  }

  /** `build_object_queue`: walks the modification map, inserting each stale
      target into an ordered set, and returns the set's ascending enumeration. */
  method BuildObjectQueue(fs: FileSystem, output: Path, fileModMap: map<Target, Time>)
    returns (r: Result<seq<Target>>)
    ensures r == ObjectQueue(fs, output, fileModMap)
    ensures r.Err? <==> output in fs && fs[output].None? && |fileModMap| > 0
    ensures r.Ok? ==> StrictlyAscending(r.value)
    ensures r.Ok? && output in fs && fs[output].Some? ==>
              forall t :: t in r.value <==>
                t in fileModMap && (fileModMap[t] > fs[output].value || t.objectFile !in fs)
    ensures r.Ok? && output !in fs ==>
              forall t :: t in r.value <==> t in fileModMap && t.objectFile !in fs
  {
    var queue: seq<Target> := [];
    var remaining := fileModMap.Keys;
    if output in fs {
      while remaining != {}
        invariant remaining <= fileModMap.Keys
        invariant StrictlyAscending(queue)
        invariant forall t :: t in queue <==>
                    t in fileModMap && t !in remaining && Stale(fs, output, t, fileModMap[t])
        invariant remaining != fileModMap.Keys ==> fs[output].Some?
        decreases remaining
      {
        var t :| t in remaining;
        match fs[output] {
          case None =>
            assert |fileModMap| > 0 by { assert t in fileModMap.Keys; }
            r := Err(Io);
            return;
          case Some(outTime) =>
            if fileModMap[t] > outTime || t.objectFile !in fs {
              queue := Insert(queue, t);
            }
        }
        remaining := remaining - {t};
      }
      if fs[output].None? {
        assert fileModMap.Keys == {};
      }
    } else {
      while remaining != {}
        invariant remaining <= fileModMap.Keys
        invariant StrictlyAscending(queue)
        invariant forall t :: t in queue <==>
                    t in fileModMap && t !in remaining && Stale(fs, output, t, fileModMap[t])
        decreases remaining
      {
        var t :| t in remaining;
        if t.objectFile !in fs {
          queue := Insert(queue, t);
        }
        remaining := remaining - {t};
      }
    }
    r := Ok(queue);
    AscendingUnique(queue, ObjectQueue(fs, output, fileModMap).value);
  }
}

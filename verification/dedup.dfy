/** The final step of extraction: keep the first field of each name and drop
    later fields with a name already seen (src/core/extractor.ts:360-371). */
module Dedup {
  import opened Schema

  /** `a` is `b` with some elements left out, order kept. */
  predicate IsSubsequence(a: seq<Field>, b: seq<Field>)
    decreases |b|
  {
    || |a| == 0
    || (&& |b| > 0
        && ((a[0] == b[0] && IsSubsequence(a[1..], b[1..])) || IsSubsequence(a, b[1..])))
  }

  /** Field `i` of `fs` is the first one with its name. */
  ghost predicate IsFirstOfName(fs: seq<Field>, i: int)
  {
    0 <= i < |fs| && forall k :: 0 <= k < i ==> fs[k].name != fs[i].name
  }

  /** Every field of `r` is the first field of `fs` with that name. */
  ghost predicate KeepsFirst(r: seq<Field>, fs: seq<Field>)
  {
    forall j :: 0 <= j < |r| ==> exists i :: IsFirstOfName(fs, i) && fs[i] == r[j]
  }

  /** The fields of `fs` whose names are not in `seen`, first of each name only. */
  function DedupFrom(fs: seq<Field>, seen: set<string>): (r: seq<Field>)
    ensures NameSet(r) == NameSet(fs) - seen
    ensures DistinctNames(r)
    decreases |fs|
  {
    if |fs| == 0 then []
    else
      NameSetTail(fs);
      if fs[0].name in seen then DedupFrom(fs[1..], seen)
      else
        var rest := DedupFrom(fs[1..], seen + {fs[0].name});
        assert forall j :: 0 <= j < |rest| ==> rest[j].name in NameSet(rest);
        NameSetTail([fs[0]] + rest);
        assert ([fs[0]] + rest)[1..] == rest;
        [fs[0]] + rest
  }

  lemma {:induction false} DedupFromSubsequence(fs: seq<Field>, seen: set<string>)
    ensures IsSubsequence(DedupFrom(fs, seen), fs)
    decreases |fs|
  {
    if |fs| > 0 {
      if fs[0].name in seen {
        DedupFromSubsequence(fs[1..], seen);
      } else {
        DedupFromSubsequence(fs[1..], seen + {fs[0].name});
        var r := DedupFrom(fs, seen);
        assert r[0] == fs[0] && r[1..] == DedupFrom(fs[1..], seen + {fs[0].name});
      }
    }
  }

  lemma {:induction false} DedupFromKeepsFirst(fs: seq<Field>, seen: set<string>)
    ensures KeepsFirst(DedupFrom(fs, seen), fs)
    decreases |fs|
  {
    if |fs| > 0 {
      if fs[0].name in seen {
        var r := DedupFrom(fs[1..], seen);
        DedupFromKeepsFirst(fs[1..], seen);
        NamesOutsideSeen(fs[1..], seen, fs[0].name);
        KeepsFirstShift(r, fs, false);
      } else {
        var r := DedupFrom(fs[1..], seen + {fs[0].name});
        DedupFromKeepsFirst(fs[1..], seen + {fs[0].name});
        NamesOutsideSeen(fs[1..], seen + {fs[0].name}, fs[0].name);
        assert IsFirstOfName(fs, 0);
        KeepsFirstShift(r, fs, true);
      }
    }
  }

  /** No field of the result carries a name from `seen`. */
  lemma NamesOutsideSeen(fs: seq<Field>, seen: set<string>, n: string)
    requires n in seen
    ensures forall j :: 0 <= j < |DedupFrom(fs, seen)| ==> DedupFrom(fs, seen)[j].name != n
  {
    var r := DedupFrom(fs, seen);
    assert forall j :: 0 <= j < |r| ==> r[j].name in NameSet(r);
  }

  lemma NameSetTail(fs: seq<Field>)
    requires |fs| > 0
    ensures NameSet(fs) == {fs[0].name} + NameSet(fs[1..])
  {
    assert forall i :: 1 <= i < |fs| ==> fs[i] == fs[1..][i - 1];
  }

  /** A field of the tail that is first of its name in the tail, and whose
      name differs from the head's, is first of its name in the whole list. */
  lemma KeepsFirstShift(r: seq<Field>, fs: seq<Field>, headAfter: bool)
    requires |fs| > 0 && KeepsFirst(r, fs[1..])
    requires forall j :: 0 <= j < |r| ==> r[j].name != fs[0].name
    ensures KeepsFirst(r, fs)
    ensures headAfter && IsFirstOfName(fs, 0) ==> KeepsFirst([fs[0]] + r, fs)
  {
    forall j | 0 <= j < |r|
      ensures exists i :: IsFirstOfName(fs, i) && fs[i] == r[j]
    {
      var tail := fs[1..];
      var i := FirstSource(r, tail, j);
      assert fs[i + 1] == tail[i] == r[j];
      forall k | 0 <= k < i + 1
        ensures fs[k].name != fs[i + 1].name
      {
        if k > 0 {
          assert fs[k] == tail[k - 1];
        }
      }
      assert IsFirstOfName(fs, i + 1);
    }
    if headAfter && IsFirstOfName(fs, 0) {
      var r' := [fs[0]] + r;
      forall j | 0 <= j < |r'|
        ensures exists i :: IsFirstOfName(fs, i) && fs[i] == r'[j]
      {
        if j == 0 {
          assert fs[0] == r'[0];
        } else {
          assert r'[j] == r[j - 1];
        }
      }
    }
  }

  /** The position in `fs` that field `j` of `r` was kept from. */
  lemma FirstSource(r: seq<Field>, fs: seq<Field>, j: int) returns (i: int)
    requires KeepsFirst(r, fs) && 0 <= j < |r|
    ensures IsFirstOfName(fs, i) && fs[i] == r[j]
  {
    var x := r[j];
    assert exists ii :: IsFirstOfName(fs, ii) && fs[ii] == x;
    i :| IsFirstOfName(fs, i) && fs[i] == x;
  }

  /** `extractKeysFromCode`'s de-duplication: pairwise-distinct names, a
      subsequence of the input, the first field of each name, no name lost. */
  function Dedup(fs: seq<Field>): (r: seq<Field>)
    ensures DistinctNames(r)
    ensures NameSet(r) == NameSet(fs)
    ensures IsSubsequence(r, fs)
    ensures KeepsFirst(r, fs)
  {
    DedupFromSubsequence(fs, {});
    DedupFromKeepsFirst(fs, {});
    DedupFrom(fs, {})
  }

  /** Lists with distinct names, none of them already seen, pass unchanged. */
  lemma {:induction false} DedupFromDistinct(fs: seq<Field>, seen: set<string>)
    requires DistinctNames(fs)
    requires forall i :: 0 <= i < |fs| ==> fs[i].name !in seen
    ensures DedupFrom(fs, seen) == fs
    decreases |fs|
  {
    if |fs| > 0 {
      DedupFromDistinct(fs[1..], seen + {fs[0].name});
    }
  }

  /** De-duplicating twice is de-duplicating once. */
  lemma DedupIdempotent(fs: seq<Field>)
    ensures Dedup(Dedup(fs)) == Dedup(fs)
  {
    DedupFromDistinct(Dedup(fs), {});
  }

  /** Two fields named `a` and one named `b` become the first `a` and the `b`. */
  lemma DedupExample(x: Field, y: Field, z: Field)
    requires x.name == y.name && z.name != x.name
    ensures Dedup([x, y, z]) == [x, z]
  {
    var none: set<string> := {};
    assert [x, y, z][1..] == [y, z] && [y, z][1..] == [z] && [z][1..] == [];
    assert DedupFrom([z], {x.name}) == [z] + DedupFrom([], {x.name, z.name});
    assert DedupFrom([y, z], {x.name}) == [z];
    assert none + {x.name} == {x.name};
    assert DedupFrom([x, y, z], none) == [x] + DedupFrom([y, z], none + {x.name});
  }

  /** The loop of lines 361-371: a set of seen names and an output list. */
  method RemoveDuplicates(fields: seq<Field>) returns (unique: seq<Field>)
    ensures unique == Dedup(fields)
  {
    unique := [];
    var fieldNames: set<string> := {};
    for i := 0 to |fields|
      invariant fieldNames == NameSet(unique)
      invariant unique + DedupFrom(fields[i..], fieldNames) == DedupFrom(fields, {})
    {
      DedupFromStep(fields[i..], fieldNames);
      assert fields[i..][1..] == fields[i + 1..];
      if fields[i].name !in fieldNames {
        ghost var tail := DedupFrom(fields[i + 1..], fieldNames + {fields[i].name});
        assert unique + ([fields[i]] + tail) == (unique + [fields[i]]) + tail;
        NameSetAppend(unique, fields[i]);
        fieldNames := fieldNames + {fields[i].name};
        unique := unique + [fields[i]];
      }
    }
    assert fields[|fields|..] == [];
  }

  /** One step of the de-duplication: the head is kept iff its name is new. */
  lemma DedupFromStep(fs: seq<Field>, seen: set<string>)
    requires |fs| > 0
    ensures fs[0].name in seen ==> DedupFrom(fs, seen) == DedupFrom(fs[1..], seen)
    ensures fs[0].name !in seen ==>
      DedupFrom(fs, seen) == [fs[0]] + DedupFrom(fs[1..], seen + {fs[0].name})
  {
  }

  lemma NameSetAppend(fs: seq<Field>, f: Field)
    ensures NameSet(fs + [f]) == NameSet(fs) + {f.name}
  {
    assert forall i :: 0 <= i < |fs| ==> (fs + [f])[i] == fs[i];
    assert (fs + [f])[|fs|] == f;
  }
}

/**
 * The batching in lib/data/kids.ts: `getKidsByIds` drops empty ids, removes
 * repeated ones keeping the first, and looks them up in groups of at most 50
 * made by `chunk`. The lookups themselves belong to the document store and
 * are not part of this model.
 */
module Kids {

  /** The concatenation of the chunks. */
  function Flatten<T>(chunks: seq<seq<T>>): seq<T> {
    if chunks == [] then [] else chunks[0] + Flatten(chunks[1..])
  }

  lemma {:induction false} FlattenAppend<T>(chunks: seq<seq<T>>, last: seq<T>)
    ensures Flatten(chunks + [last]) == Flatten(chunks) + last
  {
    if chunks == [] {
      assert chunks + [last] == [last];
    } else {
      assert (chunks + [last])[1..] == chunks[1..] + [last];
      FlattenAppend(chunks[1..], last);
    }
  }

  /**
   * `chunk(items, size)`: consecutive slices of `size` items, the last one
   * possibly shorter. The loop stops only for `size >= 1`; with a smaller
   * size the source never returns.
   */
  method Chunk<T>(items: seq<T>, size: nat) returns (result: seq<seq<T>>)
    requires size >= 1
    ensures Flatten(result) == items
    ensures forall k :: 0 <= k < |result| ==> 1 <= |result[k]| <= size
    ensures forall k :: 0 <= k < |result| - 1 ==> |result[k]| == size
    ensures |items| <= |result| * size < |items| + size
    ensures items == [] <==> result == []
  {
    result := [];
    var i := 0;
    while i < |items|
      invariant i <= |items|
      invariant Flatten(result) == items[..i]
      invariant i <= |result| * size < i + size
      invariant forall k :: 0 <= k < |result| ==> 1 <= |result[k]| <= size
      invariant forall k :: 0 <= k < |result| - 1 ==> |result[k]| == size
      invariant i < |items| ==> i == |result| * size && forall k :: 0 <= k < |result| ==> |result[k]| == size
    {
      var end := if i + size <= |items| then i + size else |items|;
      var piece := items[i..end];
      FlattenAppend(result, piece);
      assert items[..end] == items[..i] + piece;
      assert (|result| + 1) * size == |result| * size + size;
      result := result + [piece];
      i := end;
    }
  }

  /** `ids.filter(Boolean)`: the non-empty ids, in order. */
  function NonEmptyIds(ids: seq<string>): (r: seq<string>)
    ensures forall x :: x in r <==> x in ids && x != ""
  {
    if ids == [] then []
    else
      var rest := NonEmptyIds(ids[1..]);
      assert forall x :: x in ids <==> x == ids[0] || x in ids[1..];
      if ids[0] == "" then rest else [ids[0]] + rest
  }

  /** Adding the values of `xs` one by one to the insertion-ordered set `acc` (`new Set(xs)`). */
  function InsertAll(acc: seq<string>, xs: seq<string>): (r: seq<string>)
    ensures |acc| <= |r| <= |acc| + |xs|
    decreases |xs|
  {
    if xs == [] then acc
    else InsertAll(if xs[0] in acc then acc else acc + [xs[0]], xs[1..])
  }

  /** Inserting keeps what the set held, in place, and ends with exactly the values of both. */
  lemma {:induction false} InsertAllExtends(acc: seq<string>, xs: seq<string>)
    ensures |acc| <= |InsertAll(acc, xs)| && InsertAll(acc, xs)[..|acc|] == acc
    ensures forall x :: x in InsertAll(acc, xs) <==> x in acc || x in xs
    decreases |xs|
  {
    if xs != [] {
      var next := if xs[0] in acc then acc else acc + [xs[0]];
      InsertAllExtends(next, xs[1..]);
      var r := InsertAll(acc, xs);
      assert r == InsertAll(next, xs[1..]);
      assert r[..|acc|] == r[..|next|][..|acc|];
      assert next[..|acc|] == acc;
      assert forall x :: x in xs <==> x == xs[0] || x in xs[1..];
    }
  }

  /** The first occurrence of every value of `xs`, in the order they first appear: the reference. */
  function FirstOccurrences(xs: seq<string>): (r: seq<string>)
    ensures forall x :: x in r <==> x in xs
  {
    if xs == [] then []
    else
      var init := xs[..|xs| - 1];
      var last := xs[|xs| - 1];
      var r := FirstOccurrences(init);
      assert xs == init + [last];
      if last in init then r else r + [last]
  }

  /** The index at which `x` first appears in `xs`. */
  function FirstIndex(xs: seq<string>, x: string): (k: nat)
    requires x in xs
    ensures k < |xs| && xs[k] == x && x !in xs[..k]
  {
    if xs[0] == x then 0 else 1 + FirstIndex(xs[1..], x)
  }

  lemma {:induction false} FirstIndexInPrefix(p: seq<string>, s: seq<string>, x: string)
    requires x in p
    ensures FirstIndex(p + s, x) == FirstIndex(p, x)
  {
    if p[0] != x {
      assert (p + s)[1..] == p[1..] + s;
      FirstIndexInPrefix(p[1..], s, x);
    }
  }

  /** The reference holds no value twice and lists values by where they first appear. */
  lemma {:induction false} FirstOccurrencesOrdered(xs: seq<string>)
    ensures forall i, j :: 0 <= i < j < |FirstOccurrences(xs)| ==>
              FirstOccurrences(xs)[i] != FirstOccurrences(xs)[j] &&
              FirstIndex(xs, FirstOccurrences(xs)[i]) < FirstIndex(xs, FirstOccurrences(xs)[j])
  {
    if xs != [] {
      var init := xs[..|xs| - 1];
      var last := xs[|xs| - 1];
      assert xs == init + [last];
      FirstOccurrencesOrdered(init);
      var r0 := FirstOccurrences(init);
      forall x | x in r0
        ensures FirstIndex(xs, x) == FirstIndex(init, x)
      {
        FirstIndexInPrefix(init, [last], x);
      }
      var r := FirstOccurrences(xs);
      if last in init {
        assert r == r0;
        forall i, j | 0 <= i < j < |r|
          ensures r[i] != r[j] && FirstIndex(xs, r[i]) < FirstIndex(xs, r[j])
        {
          assert r[i] == r0[i] && r[j] == r0[j];
          assert FirstIndex(init, r0[i]) < FirstIndex(init, r0[j]);
        }
      } else {
        var k := FirstIndex(xs, last);
        assert k == |xs| - 1 by {
          assert xs[..|xs| - 1] == init;
        }
        assert r == r0 + [last];
        forall i, j | 0 <= i < j < |r|
          ensures r[i] != r[j] && FirstIndex(xs, r[i]) < FirstIndex(xs, r[j])
        {
          assert r[i] == r0[i] && r0[i] in init;
          if j < |r0| {
            assert r[j] == r0[j];
            assert FirstIndex(init, r0[i]) < FirstIndex(init, r0[j]);
          } else {
            assert FirstIndex(init, r0[i]) < |init|;
          }
        }
      }
    }
  }

  /** Folding values into an insertion-ordered set built from `p` gives the reference of `p + s`. */
  lemma {:induction false} InsertAllIsFirstOccurrences(p: seq<string>, s: seq<string>)
    ensures InsertAll(FirstOccurrences(p), s) == FirstOccurrences(p + s)
    decreases |s|
  {
    if s == [] {
      assert p + s == p;
    } else {
      var x := s[0];
      var p' := p + [x];
      var f := FirstOccurrences(p);
      assert p'[..|p'| - 1] == p;
      assert FirstOccurrences(p') == if x in f then f else f + [x];
      assert InsertAll(f, s) == InsertAll(FirstOccurrences(p'), s[1..]);
      InsertAllIsFirstOccurrences(p', s[1..]);
      assert p' + s[1..] == p + s;
    }
  }

  /** Dropping empty ids keeps the order in which the others first appear. */
  lemma {:induction false} NonEmptyKeepsOrder(ids: seq<string>, a: string, b: string)
    requires a in NonEmptyIds(ids) && b in NonEmptyIds(ids)
    requires FirstIndex(NonEmptyIds(ids), a) < FirstIndex(NonEmptyIds(ids), b)
    ensures FirstIndex(ids, a) < FirstIndex(ids, b)
  {
    var f := NonEmptyIds(ids);
    if ids[0] == "" {
      assert f == NonEmptyIds(ids[1..]);
      NonEmptyKeepsOrder(ids[1..], a, b);
    } else if ids[0] != a {
      assert f == [ids[0]] + NonEmptyIds(ids[1..]);
      assert f[1..] == NonEmptyIds(ids[1..]);
      assert ids[0] != b;
      NonEmptyKeepsOrder(ids[1..], a, b);
    }
  }

  /** The first non-empty occurrences keep the order in which the ids first appear. */
  lemma FirstOccurrencesKeepIdOrder(ids: seq<string>)
    ensures forall i, j :: 0 <= i < j < |FirstOccurrences(NonEmptyIds(ids))| ==>
              FirstIndex(ids, FirstOccurrences(NonEmptyIds(ids))[i]) <
              FirstIndex(ids, FirstOccurrences(NonEmptyIds(ids))[j])
  {
    var f := NonEmptyIds(ids);
    var r := FirstOccurrences(f);
    FirstOccurrencesOrdered(f);
    forall i, j | 0 <= i < j < |r|
      ensures FirstIndex(ids, r[i]) < FirstIndex(ids, r[j])
    {
      NonEmptyKeepsOrder(ids, r[i], r[j]);
    }
  }

  /**
   * `Array.from(new Set(ids.filter(Boolean)))`: no empty id, no id twice,
   * every non-empty id present, in the order of first appearance.
   */
  function UniqueIds(ids: seq<string>): (r: seq<string>)
    ensures r == FirstOccurrences(NonEmptyIds(ids))
    ensures forall x :: x in r <==> x in ids && x != ""
    ensures forall i, j :: 0 <= i < j < |r| ==> r[i] != r[j]
    ensures forall i, j :: 0 <= i < j < |r| ==> FirstIndex(ids, r[i]) < FirstIndex(ids, r[j])
  {
    var f := NonEmptyIds(ids);
    InsertAllIsFirstOccurrences([], f);
    assert [] + f == f;
    FirstOccurrencesOrdered(f);
    FirstOccurrencesKeepIdOrder(ids);
    InsertAll([], f)
  }

  /** Ids per document-store read. */
  const BatchSize: nat := 50

  /** The groups `getKidsByIds` reads: the unique ids, at most 50 to a group, nothing left out. */
  method LookupBatches(ids: seq<string>) returns (batches: seq<seq<string>>)
    ensures Flatten(batches) == UniqueIds(ids)
    ensures forall k :: 0 <= k < |batches| ==> 1 <= |batches[k]| <= BatchSize
    ensures |UniqueIds(ids)| <= |batches| * BatchSize < |UniqueIds(ids)| + BatchSize
  {
    batches := Chunk(UniqueIds(ids), BatchSize);
  }
}

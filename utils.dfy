/** The renderer's small helpers: array chunking, display names and search. */
module Utils {
  import opened Wrappers
  import opened Strings
  import opened Lists
  import opened Division

  /** The chunks laid end to end. */
  function Flatten<T>(chunks: seq<seq<T>>): seq<T> {
    if chunks == [] then [] else Flatten(chunks[..|chunks| - 1]) + chunks[|chunks| - 1]
  }

  /** Appending a chunk appends its elements. */
  lemma FlattenSnoc<T>(chunks: seq<seq<T>>, chunk: seq<T>)
    ensures Flatten(chunks + [chunk]) == Flatten(chunks) + chunk
  {
    assert (chunks + [chunk])[..|chunks|] == chunks;
  }

  /**
   * `chunkArrayGenerator(arr, size)`, collecting what the generator yields:
   * slices of `size` elements starting at `0, size, 2 * size, ...`. Its
   * only callers pass a positive size; with 0 the generator never ends.
   */
  method ChunkArray<T>(arr: seq<T>, size: nat) returns (chunks: seq<seq<T>>)
    requires size >= 1
    ensures Flatten(chunks) == arr
    ensures forall j :: 0 <= j < |chunks| - 1 ==> |chunks[j]| == size
    ensures |chunks| > 0 ==> 1 <= |chunks[|chunks| - 1]| <= size
    ensures |chunks| == (|arr| + size - 1) / size
  {
    chunks := [];
    var i := 0;
    while i < |arr|
      invariant i == |chunks| * size
      invariant |chunks| > 0 ==> i - size < |arr|
      invariant Flatten(chunks) == arr[..Min(i, |arr|)]
      invariant forall j :: 0 <= j < |chunks| - 1 ==> |chunks[j]| == size
      invariant |chunks| > 0 ==> 1 <= |chunks[|chunks| - 1]| <= size
      invariant i <= |arr| ==> forall j :: 0 <= j < |chunks| ==> |chunks[j]| == size
      decreases |arr| - i
    {
      var end := Min(i + size, |arr|);
      var chunk := arr[i..end];
      FlattenSnoc(chunks, chunk);
      assert arr[..i] + chunk == arr[..end];
      assert (|chunks| + 1) * size == |chunks| * size + size;
      chunks := chunks + [chunk];
      i := i + size;
    }
    DivBetween(|arr| + size - 1, size, |chunks|, i);
  }

  /** `parts.join(sep)`: the first part comes first, then the separator when more follow. */
  function Join(parts: seq<string>, sep: string): (r: string)
    ensures |parts| >= 1 ==> HasPrefix(r, parts[0])
    ensures |parts| >= 2 ==> HasPrefix(r, parts[0] + sep)
  {
    if parts == [] then ""
    else if |parts| == 1 then parts[0]
    else parts[0] + sep + Join(parts[1..], sep)
  }

  /**
   * `parts.filter(Boolean)` on optional strings: a part is kept exactly
   * when it is present and non-empty (its order is `TruthyPartsAppend`).
   */
  function TruthyParts(parts: seq<Option<string>>): (r: seq<string>)
    ensures |r| <= |parts|
    ensures forall s :: s in r <==> Some(s) in parts && s != ""
  {
    if parts == [] then []
    else
      assert forall p :: p in parts <==> p == parts[0] || p in parts[1..];
      (if Truthy(parts[0]) then [parts[0].value] else []) + TruthyParts(parts[1..])
  }

  /** The kept parts keep their order: filtering a concatenation filters each side. */
  lemma {:induction false} TruthyPartsAppend(xs: seq<Option<string>>, ys: seq<Option<string>>)
    ensures TruthyParts(xs + ys) == TruthyParts(xs) + TruthyParts(ys)
    decreases |xs|
  {
    if xs == [] {
      assert xs + ys == ys;
    } else {
      assert (xs + ys)[0] == xs[0];
      assert (xs + ys)[1..] == xs[1..] + ys;
      TruthyPartsAppend(xs[1..], ys);
    }
  }

  /**
   * `[first_name, last_name].filter(Boolean).join(" ")`: the present,
   * non-empty parts joined by one space.
   */
  function FullName(firstName: Option<string>, lastName: Option<string>): (r: string)
    ensures Truthy(firstName) && Truthy(lastName) ==> r == firstName.value + " " + lastName.value
    ensures Truthy(firstName) && !Truthy(lastName) ==> r == firstName.value
    ensures !Truthy(firstName) && Truthy(lastName) ==> r == lastName.value
    ensures !Truthy(firstName) && !Truthy(lastName) ==> r == ""
  {
    var parts := [firstName, lastName];
    assert parts[1..] == [lastName] && parts[1..][1..] == [];
    assert TruthyParts([lastName]) == (if Truthy(lastName) then [lastName.value] else []);
    var kept := TruthyParts(parts);
    assert [firstName.GetOr(""), lastName.GetOr("")][1..] == [lastName.GetOr("")];
    assert Truthy(firstName) && Truthy(lastName) ==> kept == [firstName.GetOr(""), lastName.GetOr("")];
    assert Join([firstName.GetOr(""), lastName.GetOr("")], " ") == firstName.GetOr("") + " " + lastName.GetOr("");
    Join(kept, " ")
  }

  /** `value.toLowerCase().includes(search.toLowerCase())`. */
  function SearchIncludes(value: string, search: string): (r: bool)
    ensures r <==> exists i :: OccursAt(Lower(value), Lower(search), i)
  {
    Contains(Lower(value), Lower(search))
  }

  /** The search ignores letter case on both sides. */
  lemma SearchIgnoresCase(value: string, search: string)
    ensures SearchIncludes(Lower(value), search) == SearchIncludes(value, search)
    ensures SearchIncludes(value, Lower(search)) == SearchIncludes(value, search)
  {
    LowerIdempotent(value);
    LowerIdempotent(search);
  }

  /** Every value matches itself and the empty search. */
  lemma SearchMatchesSelfAndEmpty(value: string)
    ensures SearchIncludes(value, value)
    ensures SearchIncludes(value, "")
  {
    assert OccursAt(Lower(value), Lower(value), 0);
    assert OccursAt(Lower(value), Lower(""), 0);
  }
}

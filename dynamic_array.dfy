/**
 * `Dynamic_Array<T>`: a growable array that keeps its elements in the
 * positions 0 .. maximum_index of a heap buffer of `size` slots. Every insert
 * and every remove copies the elements into a freshly allocated buffer,
 * shifting them around the affected position; a full buffer is first replaced
 * by one `resize_factor` times larger.
 *
 * The buffer is `arr` (its length is the source's `size`), `maximumIndex` is
 * the source's `maximum_index` (-1 when empty). The elements are
 * `Elements() == arr[..maximumIndex + 1]`.
 */
module DynamicArrays {
  import opened Wrappers
  import opened Sequences

  const INSERT_RANGE_MESSAGE := "Tried to insert data from an index higher than one position after data was stored."
  const REPLACE_RANGE_MESSAGE := "Tried to replace data from an index higher than data was stored."
  const REMOVE_RANGE_MESSAGE := "Tried to remove data from an index higher than data was stored."
  const ACCESS_RANGE_MESSAGE := "Tried to set data from an index higher than data was stored."
  const OFFSET_RANGE_MESSAGE := "Offset parameter was greater than the maximum_index."

  /** The default capacity and resize factor of a new array. */
  const DEFAULT_SIZE := 4
  const DEFAULT_RESIZE_FACTOR := 2

  // ---------------------------------------------------------------------------
  // Sequence-level specifications
  // ---------------------------------------------------------------------------

  /** The capacity after an insert into an array holding `count` elements in `capacity` slots. */
  function GrownCapacity(count: nat, capacity: nat, factor: nat): (c: nat)
    ensures count < capacity ==> c == capacity
    ensures count >= capacity ==> c == capacity * factor
  {
    if count >= capacity then capacity * factor else capacity
  }

  /** `f` applied to every element of `xs`. */
  function MapSeq<A, B>(xs: seq<A>, f: A -> B): (r: seq<B>)
    ensures |r| == |xs|
    ensures forall i :: 0 <= i < |xs| ==> r[i] == f(xs[i])
  {
    seq(|xs|, i requires 0 <= i < |xs| => f(xs[i]))
  }

  /** The strings of `ss` joined by single spaces. */
  function Join(ss: seq<string>): string
  {
    if |ss| == 0 then ""
    else if |ss| == 1 then ss[0]
    else ss[0] + " " + Join(ss[1..])
  }

  /** Joining one more string appends a space and that string. */
  lemma {:induction false} JoinSnoc(ss: seq<string>, s: string)
    requires |ss| > 0
    ensures Join(ss + [s]) == Join(ss) + " " + s
  {
    if |ss| == 1 {
      assert ss + [s] == [ss[0], s];
    } else {
      assert (ss + [s])[1..] == ss[1..] + [s];
      JoinSnoc(ss[1..], s);
    }
  }

  /** The length of the joined string: every string plus one space between neighbours. */
  function TotalLength(ss: seq<string>): nat
  {
    if ss == [] then 0 else |ss[0]| + TotalLength(ss[1..])
  }

  lemma {:induction false} JoinLength(ss: seq<string>)
    requires |ss| > 0
    ensures |Join(ss)| == TotalLength(ss) + |ss| - 1
  {
    if |ss| > 1 {
      JoinLength(ss[1..]);
    }
  }

  /** A joined string starts with the first string and ends with the last one. */
  lemma {:induction false} JoinEnds(ss: seq<string>)
    requires |ss| > 0
    ensures |Join(ss)| >= |ss[0]| && Join(ss)[..|ss[0]|] == ss[0]
    ensures |Join(ss)| >= |ss[|ss| - 1]| && Join(ss)[|Join(ss)| - |ss[|ss| - 1]|..] == ss[|ss| - 1]
  {
    if |ss| > 1 {
      JoinEnds(ss[1..]);
      var rest := Join(ss[1..]);
      assert Join(ss) == ss[0] + " " + rest;
      assert Join(ss)[|Join(ss)| - |rest|..] == rest;
    }
  }

  /** No space at either end when the first and last strings are non-empty and do not start or end with one. */
  lemma JoinHasNoOuterSpace(ss: seq<string>)
    requires |ss| > 0
    requires |ss[0]| > 0 && ss[0][0] != ' '
    requires |ss[|ss| - 1]| > 0 && ss[|ss| - 1][|ss[|ss| - 1]| - 1] != ' '
    ensures |Join(ss)| > 0 && Join(ss)[0] != ' ' && Join(ss)[|Join(ss)| - 1] != ' '
  {
    JoinEnds(ss);
    var j, last := Join(ss), ss[|ss| - 1];
    assert j[|j| - |last|..][|last| - 1] == j[|j| - 1];
    assert j[..|ss[0]|][0] == j[0];
  }

  /** Splits a string at every space: the inverse of `Join` on space-free strings. */
  function Split(s: string): (r: seq<string>)
    ensures |r| > 0
    decreases |s|
  {
    var k := FirstSpace(s, 0);
    if k == |s| then [s] else [s[..k]] + Split(s[k + 1..])
  }

  /** Space-joined serialisation can be read back when no element contains a space. */
  lemma {:induction false} SplitJoin(ss: seq<string>)
    requires |ss| > 0
    requires forall i :: 0 <= i < |ss| ==> ' ' !in ss[i]
    ensures Split(Join(ss)) == ss
  {
    if |ss| == 1 {
      assert FirstSpace(ss[0], 0) == |ss[0]|;
    } else {
      var j := Join(ss);
      var head, rest := ss[0], Join(ss[1..]);
      assert j == head + " " + rest;
      assert FirstSpace(j, 0) == |head| by {
        assert forall i :: 0 <= i < |head| ==> j[i] == head[i];
        assert j[|head|] == ' ';
      }
      assert j[..|head|] == head;
      assert j[|head| + 1..] == rest;
      SplitJoin(ss[1..]);
      assert [head] + ss[1..] == ss;
    }
  }

  // ---------------------------------------------------------------------------
  // The array
  // ---------------------------------------------------------------------------

  class DynamicArray<T(0, ==)> {
    var arr: array<T>
    var maximumIndex: int
    var resizeFactor: nat
    ghost var Repr: set<object>

    ghost predicate Valid()
      reads this, Repr
      ensures Valid() ==> this in Repr
    {
      Repr == {this, arr} && -1 <= maximumIndex < arr.Length
    }

    /** The stored elements, positions 0 .. maximum_index. */
    ghost function Elements(): (s: seq<T>)
      reads this, Repr
      requires Valid()
      ensures |s| <= arr.Length
    {
      arr[..maximumIndex + 1]
    }

    /** The number of slots of the buffer (the source's `size`). */
    ghost function Capacity(): nat
      reads this
    {
      arr.Length
    }

    /** A full array can be grown enough to take one more element. */
    ghost predicate CanGrow()
      reads this, Repr
      requires Valid()
    {
      |Elements()| < arr.Length || |Elements()| < arr.Length * resizeFactor
    }

    constructor ()
      ensures Valid() && fresh(Repr)
      ensures Elements() == [] && arr.Length == DEFAULT_SIZE && resizeFactor == DEFAULT_RESIZE_FACTOR
    {
      arr := new T[DEFAULT_SIZE];
      resizeFactor := DEFAULT_RESIZE_FACTOR;
      maximumIndex := -1;
      Repr := {this, arr};
    }

    constructor Sized(initialSize: nat)
      ensures Valid() && fresh(Repr)
      ensures Elements() == [] && arr.Length == initialSize && resizeFactor == DEFAULT_RESIZE_FACTOR
    {
      arr := new T[initialSize];
      resizeFactor := DEFAULT_RESIZE_FACTOR;
      maximumIndex := -1;
      Repr := {this, arr};
    }

    method SetResizeFactor(factor: nat)
      requires Valid()
      modifies this
      ensures Valid() && Repr == old(Repr)
      ensures resizeFactor == factor
      ensures arr == old(arr) && Elements() == old(Elements())
    {
      resizeFactor := factor;
    }

    method GetResizeFactor() returns (factor: nat)
      requires Valid()
      ensures factor == resizeFactor
    {
      factor := resizeFactor;
    }

    /** The capacity; never below the number of elements. */
    method GetSize() returns (size: nat)
      requires Valid()
      ensures size == Capacity() && size >= |Elements()|
    {
      size := arr.Length;
    }

    /** The last occupied position: one less than the number of elements. */
    method GetMaximumIndex() returns (index: int)
      requires Valid()
      ensures index == |Elements()| - 1
    {
      index := maximumIndex;
    }

    /** Replaces the buffer by one `resizeFactor` times larger holding the same elements. */
    method Resize()
      requires Valid()
      requires |Elements()| <= arr.Length * resizeFactor
      modifies this
      ensures Valid() && fresh(arr) && fresh(Repr - old(Repr))
      ensures arr.Length == old(arr.Length) * resizeFactor
      ensures Elements() == old(Elements())
      ensures maximumIndex == old(maximumIndex) && resizeFactor == old(resizeFactor)
    {
      var newSize := arr.Length * resizeFactor;
      var newlySizedArray := new T[newSize];
      var counter := 0;
      while counter <= maximumIndex
        modifies newlySizedArray
        invariant 0 <= counter <= maximumIndex + 1
        invariant newlySizedArray[..counter] == arr[..counter]
      {
        newlySizedArray[counter] := arr[counter];
        counter := counter + 1;
      }
      arr := newlySizedArray;
      Repr := {this, arr};
    }

    /**
     * Inserts `data` at `index`. A full buffer is grown first, even when the
     * index then turns out to be out of range.
     */
    method Insert(data: T, index: nat) returns (r: Outcome)
      requires Valid() && CanGrow()
      modifies this
      ensures Valid() && fresh(Repr - old(Repr))
      ensures resizeFactor == old(resizeFactor)
      ensures arr.Length == GrownCapacity(old(|Elements()|), old(arr.Length), resizeFactor)
      ensures index <= old(|Elements()|) ==> r == Pass && Elements() == InsertAt(old(Elements()), index, data)
      ensures index > old(|Elements()|) ==> r == Fail(OutOfRange(INSERT_RANGE_MESSAGE)) && Elements() == old(Elements())
    {
      if maximumIndex + 1 >= arr.Length {
        Resize();
      }
      if index > maximumIndex + 1 {
        return Fail(OutOfRange(INSERT_RANGE_MESSAGE));
      }
      var newArray := CopyInserting(data, index);
      arr := newArray;
      maximumIndex := maximumIndex + 1;
      Repr := {this, arr};
      r := Pass;
    }

    /**
     * The copying loops of `insert`: a new buffer of the same capacity
     * holding the elements with `data` placed at `index`.
     */
    method CopyInserting(data: T, index: nat) returns (newArray: array<T>)
      requires Valid() && index <= |Elements()| < arr.Length
      ensures fresh(newArray) && newArray.Length == arr.Length
      ensures newArray[..|Elements()| + 1] == InsertAt(Elements(), index, data)
    {
      newArray := new T[arr.Length];
      var counter := 0;
      while counter < index
        modifies newArray
        invariant 0 <= counter <= index
        invariant forall j :: 0 <= j < counter ==> newArray[j] == arr[j]
      {
        newArray[counter] := arr[counter];
        counter := counter + 1;
      }
      newArray[index] := data;
      counter := index;
      while counter <= maximumIndex
        modifies newArray
        invariant index <= counter <= maximumIndex + 1
        invariant forall j :: 0 <= j < index ==> newArray[j] == arr[j]
        invariant newArray[index] == data
        invariant forall j :: index < j <= counter ==> newArray[j] == arr[j - 1]
      {
        newArray[counter + 1] := arr[counter];
        counter := counter + 1;
      }
    }

    /** Overwrites position `index`. */
    method Replace(data: T, index: nat) returns (r: Outcome)
      requires Valid()
      modifies arr
      ensures Valid()
      ensures index < |Elements()| ==> r == Pass && Elements() == old(Elements())[index := data]
      ensures index >= |Elements()| ==> r == Fail(OutOfRange(REPLACE_RANGE_MESSAGE)) && Elements() == old(Elements())
    {
      if index > maximumIndex {
        r := Fail(OutOfRange(REPLACE_RANGE_MESSAGE));
      } else {
        arr[index] := data;
        r := Pass;
      }
    }

    /** Removes position `index`, shifting the later elements left. */
    method Remove(index: nat) returns (r: Outcome)
      requires Valid()
      modifies this
      ensures Valid() && fresh(Repr - old(Repr))
      ensures arr.Length == old(arr.Length) && resizeFactor == old(resizeFactor)
      ensures index < old(|Elements()|) ==> r == Pass && Elements() == RemoveAt(old(Elements()), index)
      ensures index >= old(|Elements()|) ==> r == Fail(OutOfRange(REMOVE_RANGE_MESSAGE)) && Elements() == old(Elements())
    {
      if index > maximumIndex {
        return Fail(OutOfRange(REMOVE_RANGE_MESSAGE));
      }
      ghost var before := Elements();
      var newArray := new T[arr.Length];
      var counter := 0;
      while counter < index
        modifies newArray
        invariant 0 <= counter <= index
        invariant forall j :: 0 <= j < counter ==> newArray[j] == before[j]
      {
        newArray[counter] := arr[counter];
        counter := counter + 1;
      }
      counter := index + 1;
      while counter <= maximumIndex
        modifies newArray
        invariant index + 1 <= counter <= maximumIndex + 1
        invariant forall j :: 0 <= j < index ==> newArray[j] == before[j]
        invariant forall j :: index <= j < counter - 1 ==> newArray[j] == before[j + 1]
      {
        newArray[counter - 1] := arr[counter];
        counter := counter + 1;
      }
      arr := newArray;
      maximumIndex := maximumIndex - 1;
      Repr := {this, arr};
      assert Elements() == RemoveAt(before, index);
      r := Pass;
    }

    /** `operator[]`: the element at `index`. */
    method Get(index: nat) returns (r: Result<T>)
      requires Valid()
      ensures index < |Elements()| ==> r == Ok(Elements()[index])
      ensures index >= |Elements()| ==> r == Err(OutOfRange(ACCESS_RANGE_MESSAGE))
    {
      if index > maximumIndex {
        r := Err(OutOfRange(ACCESS_RANGE_MESSAGE));
      } else {
        r := Ok(arr[index]);
      }
    }

    /**
     * Inserts the elements of `src` in front of this array's elements, then
     * resets `src` to a new empty array of capacity 4 and factor 2.
     */
    method Merge(src: DynamicArray<T>)
      requires Valid() && src.Valid() && Repr !! src.Repr
      requires arr.Length > 0 && resizeFactor >= 2
      modifies this, src
      ensures Valid() && fresh(Repr - old(Repr))
      ensures Elements() == old(src.Elements()) + old(Elements())
      ensures resizeFactor == old(resizeFactor)
      ensures src.Valid() && fresh(src.Repr - old(src.Repr)) && Repr !! src.Repr
      ensures src.Elements() == [] && src.arr.Length == DEFAULT_SIZE && src.resizeFactor == DEFAULT_RESIZE_FACTOR
    {
      InsertInFront(src);
      src.arr := new T[DEFAULT_SIZE];
      src.maximumIndex := -1;
      src.resizeFactor := DEFAULT_RESIZE_FACTOR;
      src.Repr := {src, src.arr};
    }

    /** The loop of `merge`: inserts the elements of `src`, in order, in front of this array's. */
    method InsertInFront(src: DynamicArray<T>)
      requires Valid() && src.Valid() && Repr !! src.Repr
      requires arr.Length > 0 && resizeFactor >= 2
      modifies this
      ensures Valid() && fresh(Repr - old(Repr)) && Repr !! src.Repr
      ensures Elements() == old(src.Elements()) + old(Elements())
      ensures arr.Length > 0 && resizeFactor == old(resizeFactor)
    {
      ghost var mine := Elements();
      ghost var theirs := src.Elements();
      var counter := 0;
      while counter <= src.maximumIndex
        invariant Valid() && fresh(Repr - old(Repr)) && Repr !! src.Repr
        invariant arr.Length > 0 && resizeFactor == old(resizeFactor)
        invariant 0 <= counter <= |theirs|
        invariant Elements() == theirs[..counter] + mine
      {
        var element := src.Get(counter);
        var inserted := Insert(element.value, counter);
        assert theirs[..counter + 1] == theirs[..counter] + [theirs[counter]];
        counter := counter + 1;
      }
      assert theirs[..counter] == theirs;
    }

    /**
     * The first position at or after `offset` that holds `data`. The source
     * has no return when the element is absent, so callers must know it is there.
     */
    method LinearSearch(data: T, offset: nat) returns (r: Result<nat>)
      requires Valid()
      requires offset < |Elements()| ==> data in Elements()[offset..]
      ensures offset >= |Elements()| ==> r == Err(OutOfRange(OFFSET_RANGE_MESSAGE))
      ensures offset < |Elements()| ==> r.Ok? && offset <= r.value < |Elements()| && Elements()[r.value] == data
      ensures r.Ok? ==> forall j :: offset <= j < r.value ==> Elements()[j] != data
    {
      if offset > maximumIndex {
        return Err(OutOfRange(OFFSET_RANGE_MESSAGE));
      }
      var counter := offset;
      while counter <= maximumIndex
        invariant offset <= counter <= maximumIndex + 1
        invariant forall j :: offset <= j < counter ==> arr[j] != data
      {
        if arr[counter] == data {
          return Ok(counter);
        }
        counter := counter + 1;
      }
      assert false;
    }

    /** The elements' strings joined by single spaces; "" for an empty array. */
    method Serialize(toString: T -> string) returns (serialized: string)
      requires Valid()
      ensures serialized == Join(MapSeq(Elements(), toString))
    {
      ghost var strs := MapSeq(Elements(), toString);
      serialized := "";
      var counter := 0;
      while counter <= maximumIndex
        invariant 0 <= counter <= maximumIndex + 1
        invariant counter == 0 ==> serialized == ""
        invariant 0 < counter ==> serialized == Join(strs[..counter]) + (if counter <= maximumIndex then " " else "")
      {
        ghost var prefix := serialized;
        serialized := serialized + toString(arr[counter]);
        if counter == 0 {
          assert strs[..1] == [strs[0]];
        } else {
          assert strs[..counter + 1] == strs[..counter] + [strs[counter]];
          JoinSnoc(strs[..counter], strs[counter]);
        }
        if counter != maximumIndex {
          serialized := serialized + " ";
        }
        counter := counter + 1;
      }
      assert strs[..counter] == strs;
    }
  }

  // ---------------------------------------------------------------------------
  // The behaviour the unit tests exercise
  // ---------------------------------------------------------------------------

  /**
   * Appends `values` one by one to an empty array of `initialSize` slots and
   * factor `factor`; the array ends up holding exactly `values`.
   */
  /** A non-empty array multiplied by a factor of at least 2 gets strictly larger. */
  lemma Outgrows(n: nat, factor: nat)
    requires n > 0 && factor >= 2
    ensures n < n * factor
  {
    assert n * factor == n + n * (factor - 1);
  }

  method FillInOrder(initialSize: nat, factor: nat, values: seq<int>) returns (da: DynamicArray<int>)
    requires initialSize > 0 && factor >= 2
    ensures fresh(da) && da.Valid() && fresh(da.Repr)
    ensures da.Elements() == values && da.resizeFactor == factor
    ensures |values| <= initialSize ==> da.arr.Length == initialSize
  {
    da := new DynamicArray<int>.Sized(initialSize);
    da.SetResizeFactor(factor);
    var i := 0;
    while i < |values|
      invariant 0 <= i <= |values|
      invariant da.Valid() && fresh(da.Repr) && da.resizeFactor == factor
      invariant da.Elements() == values[..i] && da.arr.Length >= initialSize
      invariant i <= initialSize ==> da.arr.Length == initialSize
    {
      assert da.CanGrow() by {
        Outgrows(da.arr.Length, factor);
      }
      var _ := da.Insert(values[i], i);
      assert values[..i + 1] == values[..i] + [values[i]];
      i := i + 1;
    }
    assert values[..i] == values;
  }

  /** The `InitialSize` test: 13 appends fill a 13-slot array without growing it. */
  method InitialSizeScenario(values: seq<int>) returns (size: nat, maximumIndex: int)
    requires |values| == 13
    ensures size == 13 && maximumIndex == 12
  {
    var da := FillInOrder(13, DEFAULT_RESIZE_FACTOR, values);
    size := da.GetSize();
    maximumIndex := da.GetMaximumIndex();
  }

  /** The `Upsizing` test: with factor 3, 33 appends grow an 11-slot array once, to 33 slots. */
  method UpsizingScenario(values: seq<int>) returns (size: nat, maximumIndex: int)
    requires |values| == 33
    ensures size == 33 && maximumIndex == 32
  {
    var da := new DynamicArray<int>.Sized(11);
    da.SetResizeFactor(3);
    var i := 0;
    while i < 33
      invariant 0 <= i <= 33
      invariant da.Valid() && fresh(da.Repr) && da.resizeFactor == 3
      invariant |da.Elements()| == i
      invariant da.arr.Length == if i <= 11 then 11 else 33
    {
      var _ := da.Insert(values[i], i);
      i := i + 1;
    }
    size := da.GetSize();
    maximumIndex := da.GetMaximumIndex();
  }

  /**
   * The `InsertData` test: twelve appends, then an insert at the front and
   * one at position 4; the reads around both positions see the shifted elements.
   */
  method InsertDataScenario(values: seq<int>, front: int, middle: int)
    returns (atZero: Result<int>, atOne: Result<int>, atThree: Result<int>, atFour: Result<int>, atFive: Result<int>)
    requires |values| == 12
    ensures atZero == Ok(front) && atOne == Ok(values[0])
    ensures atThree == Ok(values[2]) && atFour == Ok(middle) && atFive == Ok(values[3])
  {
    var da := FillInOrder(11, DEFAULT_RESIZE_FACTOR, values);
    var _ := da.Insert(front, 0);
    atZero := da.Get(0);
    atOne := da.Get(1);
    var _ := da.Insert(middle, 4);
    atThree := da.Get(3);
    atFour := da.Get(4);
    atFive := da.Get(5);
  }

  /** The `RemoveData` test: removing the last, the first and then position 1 of 11 15 1 7 52 leaves 15 7. */
  method RemoveDataScenario() returns (atZero: Result<int>, atOne: Result<int>)
    ensures atZero == Ok(15) && atOne == Ok(7)
  {
    var da := FillInOrder(5, DEFAULT_RESIZE_FACTOR, [11, 15, 1, 7, 52]);
    var _ := da.Remove(4);
    var _ := da.Remove(0);
    var _ := da.Remove(1);
    atZero := da.Get(0);
    atOne := da.Get(1);
  }
}

/**
 * `Linked_List<T>`: a doubly linked list of heap cells between two end
 * pointers, `polar_left` (the first cell) and `polar_right` (the last cell),
 * with a `size` counter.
 *
 * The ghost sequence `Cells` lists the cells from left to right and `Contents`
 * their data; `Valid()` ties every cell's `left`/`right` links to its
 * neighbours in `Cells`.
 */
module LinkedLists {
  import opened Wrappers
  import opened Sequences

  const ACCESS_RANGE_MESSAGE := "Tried to access data from an index higher than data was stored."

  /** The source's nested `cell` struct. */
  class Cell<T> {
    var data: T
    var left: Cell?<T>
    var right: Cell?<T>

    constructor (data: T, left: Cell?<T>, right: Cell?<T>)
      ensures this.data == data && this.left == left && this.right == right
    {
      this.data := data;
      this.left := left;
      this.right := right;
    }
  }

  class LinkedList<T> {
    var size: nat
    var polarLeft: Cell?<T>
    var polarRight: Cell?<T>

    ghost var Contents: seq<T>
    ghost var Cells: seq<Cell<T>>
    ghost var Repr: set<object>

    ghost predicate Valid()
      reads this, Repr
      ensures Valid() ==> this in Repr
    {
      && this in Repr
      && size == |Cells| == |Contents|
      && (forall c :: c in Cells ==> c in Repr)
      && Distinct(Cells)
      && (forall i :: 0 <= i < |Cells| ==> Cells[i].data == Contents[i])
      && (forall i :: 0 < i < |Cells| ==> Cells[i].left == Cells[i - 1])
      && (forall i :: 0 <= i < |Cells| - 1 ==> Cells[i].right == Cells[i + 1])
      && (size == 0 ==> polarLeft == null && polarRight == null)
      && (size > 0 ==> polarLeft == Cells[0] && polarRight == Cells[size - 1])
      && (size > 0 ==> Cells[0].left == null && Cells[size - 1].right == null)
    }

    /** An empty list: no cells, both ends null. */
    constructor ()
      ensures Valid() && fresh(Repr)
      ensures Contents == []
    {
      size := 0;
      polarLeft := null;
      polarRight := null;
      Contents := [];
      Cells := [];
      Repr := {this};
    }

    /** `get_size`: the number of elements. */
    method GetSize() returns (n: nat)
      requires Valid()
      ensures n == |Contents|
    {
      n := size;
    }

    /** The walk from `polar_left` along `right` links that `insert`, `remove`, `replace` and `operator[]` share. */
    method CellAt(index: nat) returns (c: Cell<T>)
      requires Valid() && index < size
      ensures c == Cells[index]
    {
      var currentIndex := 0;
      var currentCell := polarLeft;
      while currentIndex != index
        invariant 0 <= currentIndex <= index
        invariant currentCell == Cells[currentIndex]
        decreases index - currentIndex
      {
        currentCell := currentCell.right;
        currentIndex := currentIndex + 1;
      }
      c := currentCell;
    }

    /** `insert(data)`: appends a new cell at the `polar_right` end. */
    method Insert(data: T)
      requires Valid()
      modifies Repr
      ensures Valid() && fresh(Repr - old(Repr))
      ensures Contents == old(Contents) + [data]
    {
      var toBeInserted := new Cell(data, null, null);
      DistinctInsertAt(Cells, size, toBeInserted);
      ghost var cells0 := Cells;
      if polarLeft == null && polarRight == null {
        polarLeft := toBeInserted;
        polarRight := toBeInserted;
      } else {
        var prevPolarRight := polarRight;
        toBeInserted.left := prevPolarRight;
        prevPolarRight.right := toBeInserted;
        polarRight := toBeInserted;
      }
      size := size + 1;
      Contents := Contents + [data];
      Cells := Sequences.InsertAt(Cells, |Cells|, toBeInserted);
      Repr := Repr + {toBeInserted};
      forall i | 0 <= i < |Cells|
        ensures Cells[i].data == Contents[i]
        ensures 0 < i ==> Cells[i].left == Cells[i - 1]
        ensures i < |Cells| - 1 ==> Cells[i].right == Cells[i + 1]
      {
        if i < |cells0| - 1 {
          assert Cells[i] == cells0[i] && Cells[i + 1] == cells0[i + 1];
          assert 0 < i ==> Cells[i - 1] == cells0[i - 1];
        } else if i == |cells0| - 1 && 0 < i {
          assert Cells[i - 1] == cells0[i - 1];
        }
      }
    }

    /**
     * `insert(data, index)`: prepends at 0, appends at `size`, links the new
     * cell in front of the cell at `index` below `size`, and changes nothing
     * for a larger index.
     */
    method InsertAt(data: T, index: nat)
      requires Valid()
      modifies Repr
      ensures Valid() && fresh(Repr - old(Repr))
      ensures index <= old(|Contents|) ==> Contents == Sequences.InsertAt(old(Contents), index, data)
      ensures index > old(|Contents|) ==> Contents == old(Contents)
    {
      if index == 0 {
        Prepend(data);
      } else if index == size {
        Insert(data);
      } else if index < size {
        var currentCell := CellAt(index);
        LinkBefore(data, index, currentCell);
      }
    }

    /** The `index == 0` branches of `insert(data, index)`: the new cell becomes `polar_left`. */
    method Prepend(data: T)
      requires Valid()
      modifies Repr
      ensures Valid() && fresh(Repr - old(Repr))
      ensures Contents == [data] + old(Contents)
    {
      var toBeInserted := new Cell(data, null, null);
      DistinctInsertAt(Cells, 0, toBeInserted);
      ghost var cells0 := Cells;
      if polarLeft == null && polarRight == null {
        polarLeft := toBeInserted;
        polarRight := toBeInserted;
      } else {
        var prevPolarLeft := polarLeft;
        toBeInserted.right := prevPolarLeft;
        prevPolarLeft.left := toBeInserted;
        polarLeft := toBeInserted;
      }
      size := size + 1;
      Contents := [data] + Contents;
      Cells := Sequences.InsertAt(Cells, 0, toBeInserted);
      Repr := Repr + {toBeInserted};
      forall i | 0 <= i < |Cells|
        ensures Cells[i].data == Contents[i]
        ensures 0 < i ==> Cells[i].left == Cells[i - 1]
        ensures i < |Cells| - 1 ==> Cells[i].right == Cells[i + 1]
      {
        if i > 1 {
          assert Cells[i] == cells0[i - 1] && Cells[i - 1] == cells0[i - 2];
          assert i < |Cells| - 1 ==> Cells[i + 1] == cells0[i];
        } else if i == 1 && i < |Cells| - 1 {
          assert Cells[i + 1] == cells0[i];
        }
      }
    }

    /**
     * The `0 < index < size` branch of `insert(data, index)`: the new cell is
     * linked between `currentCell`, found at `index` by the walk, and its left
     * neighbour.
     */
    method LinkBefore(data: T, index: nat, currentCell: Cell<T>)
      requires Valid() && 0 < index < size && currentCell == Cells[index]
      modifies Repr
      ensures Valid() && fresh(Repr - old(Repr))
      ensures Contents == Sequences.InsertAt(old(Contents), index, data)
    {
      ghost var cells0 := Cells;
      var leftCell := currentCell.left;
      assert leftCell == Cells[index - 1] && leftCell in Repr;
      var toBeInserted := new Cell(data, leftCell, currentCell);
      DistinctInsertAt(Cells, index, toBeInserted);
      size := size + 1;
      Contents := Sequences.InsertAt(Contents, index, data);
      Cells := Sequences.InsertAt(Cells, index, toBeInserted);
      Repr := Repr + {toBeInserted};
      leftCell.right := toBeInserted;
      currentCell.left := toBeInserted;
      assert Cells[index - 1] == leftCell && Cells[index + 1] == currentCell;
      forall i | 0 <= i < |Cells|
        ensures Cells[i].data == Contents[i]
        ensures 0 < i ==> Cells[i].left == Cells[i - 1]
        ensures i < |Cells| - 1 ==> Cells[i].right == Cells[i + 1]
      {
        if i < index - 1 {
          assert Cells[i] == cells0[i] && Cells[i + 1] == cells0[i + 1];
          assert 0 < i ==> Cells[i - 1] == cells0[i - 1];
          assert Cells[i] != leftCell && Cells[i] != currentCell;
        } else if i > index + 1 {
          assert Cells[i] == cells0[i - 1] && Cells[i - 1] == cells0[i - 2];
          assert i < |Cells| - 1 ==> Cells[i + 1] == cells0[i];
          assert Cells[i] != leftCell && Cells[i] != currentCell;
        } else if i == index + 1 && i < |Cells| - 1 {
          assert Cells[i + 1] == cells0[i];
        } else if i == index - 1 && 0 < i {
          assert Cells[i - 1] == cells0[i - 1];
        }
      }
    }

    /** `remove()`: unlinks the cell at the `polar_right` end. */
    method Remove()
      requires Valid() && size > 0
      modifies Repr
      ensures Valid() && Repr == old(Repr)
      ensures Contents == old(Contents[..|Contents| - 1])
    {
      ghost var cells0 := Cells;
      DistinctRemoveAt(Cells, size - 1);
      assert size > 1 ==> polarRight.left == Cells[size - 2] && Cells[size - 2] in Repr;
      if polarRight.left != null {
        polarRight.left.right := null;
        polarRight := polarRight.left;
      } else {
        polarRight := null;
        polarLeft := null;
      }
      size := size - 1;
      Contents := Contents[..size];
      Cells := Sequences.RemoveAt(Cells, size);
      forall i | 0 <= i < |Cells|
        ensures Cells[i].data == Contents[i]
        ensures 0 < i ==> Cells[i].left == Cells[i - 1]
        ensures i < |Cells| - 1 ==> Cells[i].right == Cells[i + 1]
      {
        assert Cells[i] == cells0[i];
        assert 0 < i ==> Cells[i - 1] == cells0[i - 1];
        assert i < |Cells| - 1 ==> Cells[i + 1] == cells0[i + 1];
      }
    }

    /**
     * `remove(index)`: unlinks the cell at `index`; an index beyond the last
     * position changes nothing. The source dereferences `polar_left` before
     * looking at `size`, so the list must not be empty.
     */
    method RemoveAt(index: nat)
      requires Valid() && size > 0
      modifies Repr
      ensures Valid() && Repr == old(Repr)
      ensures index < old(|Contents|) ==> Contents == Sequences.RemoveAt(old(Contents), index)
      ensures index >= old(|Contents|) ==> Contents == old(Contents)
    {
      if index == 0 {
        RemoveFirst();
      } else if index == size - 1 {
        Remove();
      } else if index < size - 1 {
        var currentCell := CellAt(index);
        Unlink(index, currentCell);
      }
    }

    /** The `index == 0` branch of `remove(index)`: `polar_left` moves one cell right. */
    method RemoveFirst()
      requires Valid() && size > 0
      modifies Repr
      ensures Valid() && Repr == old(Repr)
      ensures Contents == old(Contents[1..])
    {
      ghost var cells0 := Cells;
      DistinctRemoveAt(Cells, 0);
      assert size > 1 ==> polarLeft.right == Cells[1] && Cells[1] in Repr;
      if polarLeft.right != null {
        polarLeft.right.left := null;
        polarLeft := polarLeft.right;
      } else {
        polarLeft := null;
        polarRight := null;
      }
      size := size - 1;
      Contents := Contents[1..];
      Cells := Sequences.RemoveAt(Cells, 0);
      forall i | 0 <= i < |Cells|
        ensures Cells[i].data == Contents[i]
        ensures 0 < i ==> Cells[i].left == Cells[i - 1]
        ensures i < |Cells| - 1 ==> Cells[i].right == Cells[i + 1]
      {
        assert Cells[i] == cells0[i + 1];
        assert 0 < i ==> Cells[i - 1] == cells0[i];
        assert i < |Cells| - 1 ==> Cells[i + 1] == cells0[i + 2];
      }
    }

    /**
     * The `0 < index < size - 1` branch of `remove(index)`: the neighbours of
     * `currentCell`, found at `index` by the walk, are linked to each other.
     */
    method Unlink(index: nat, currentCell: Cell<T>)
      requires Valid() && 0 < index < size - 1 && currentCell == Cells[index]
      modifies Repr
      ensures Valid() && Repr == old(Repr)
      ensures Contents == Sequences.RemoveAt(old(Contents), index)
    {
      ghost var cells0 := Cells;
      DistinctRemoveAt(Cells, index);
      assert currentCell.left == Cells[index - 1] && Cells[index - 1] in Repr;
      assert currentCell.right == Cells[index + 1] && Cells[index + 1] in Repr;
      currentCell.left.right := currentCell.right;
      currentCell.right.left := currentCell.left;
      size := size - 1;
      Contents := Sequences.RemoveAt(Contents, index);
      Cells := Sequences.RemoveAt(Cells, index);
      forall i | 0 <= i < |Cells|
        ensures Cells[i].data == Contents[i]
        ensures 0 < i ==> Cells[i].left == Cells[i - 1]
        ensures i < |Cells| - 1 ==> Cells[i].right == Cells[i + 1]
      {
        if i < index - 1 {
          assert Cells[i] == cells0[i] && Cells[i + 1] == cells0[i + 1];
          assert 0 < i ==> Cells[i - 1] == cells0[i - 1];
        } else if i > index {
          assert Cells[i] == cells0[i + 1] && Cells[i - 1] == cells0[i];
          assert i < |Cells| - 1 ==> Cells[i + 1] == cells0[i + 2];
        } else if i == index - 1 && 0 < i {
          assert Cells[i - 1] == cells0[i - 1];
        } else if i == index && i < |Cells| - 1 {
          assert Cells[i + 1] == cells0[i + 2];
        }
      }
    }

    /**
     * `replace(data, index)`: overwrites the data of the cell at `index`; an
     * index beyond the last position changes nothing.
     */
    method Replace(data: T, index: nat)
      requires Valid() && size > 0
      modifies Repr
      ensures Valid() && Repr == old(Repr)
      ensures index < old(|Contents|) ==> Contents == old(Contents)[index := data]
      ensures index >= old(|Contents|) ==> Contents == old(Contents)
    {
      var target: Cell<T>;
      if index == 0 {
        target := polarLeft;
      } else if index == size - 1 {
        target := polarRight;
      } else if index < size - 1 {
        target := CellAt(index);
      } else {
        return;
      }
      target.data := data;
      Contents := Contents[index := data];
      forall i | 0 <= i < |Cells| ensures Cells[i].data == Contents[i] {
        if i != index {
          assert Cells[i] != Cells[index];
        }
      }
    }

    /** `operator[]`: the data at `index`, or `out_of_range` beyond the last position. */
    method Get(index: nat) returns (r: Result<T>)
      requires Valid() && size > 0
      ensures index < |Contents| ==> r == Ok(Contents[index])
      ensures index >= |Contents| ==> r == Err(OutOfRange(ACCESS_RANGE_MESSAGE))
    {
      if index == 0 {
        r := Ok(polarLeft.data);
      } else if index == size - 1 {
        r := Ok(polarRight.data);
      } else if index < size - 1 {
        var currentCell := CellAt(index);
        r := Ok(currentCell.data);
      } else {
        r := Err(OutOfRange(ACCESS_RANGE_MESSAGE));
      }
    }

    /** The destructor: removes at the right end until the list is empty. */
    method Clear()
      requires Valid()
      modifies Repr
      ensures Valid() && Repr == old(Repr)
      ensures Contents == []
    {
      while size != 0
        invariant Valid() && Repr == old(Repr)
        decreases size
      {
        Remove();
      }
    }
  }

  // ---------------------------------------------------------------------------
  // The behaviour the unit tests exercise
  // ---------------------------------------------------------------------------

  /** Appends `values` one by one to a new empty list, which then holds exactly `values`. */
  method FromValues(values: seq<int>) returns (ll: LinkedList<int>)
    ensures fresh(ll) && ll.Valid() && fresh(ll.Repr)
    ensures ll.Contents == values
  {
    ll := new LinkedList<int>();
    var i := 0;
    while i < |values|
      invariant 0 <= i <= |values|
      invariant ll.Valid() && fresh(ll.Repr)
      invariant ll.Contents == values[..i]
    {
      ll.Insert(values[i]);
      assert values[..i + 1] == values[..i] + [values[i]];
      i := i + 1;
    }
    assert values[..i] == values;
  }

  /**
   * The `InsertData` test: eleven appends, an insert at the front and one at
   * position 6; the reads around both positions see the shifted elements.
   */
  method InsertDataScenario(values: seq<int>, front: int, middle: int)
    returns (atZero: Result<int>, atOne: Result<int>, atFive: Result<int>, atSix: Result<int>, atSeven: Result<int>)
    requires |values| == 11
    ensures atZero == Ok(front) && atOne == Ok(values[0])
    ensures atFive == Ok(values[4]) && atSix == Ok(middle) && atSeven == Ok(values[5])
  {
    var ll := FromValues(values);
    ll.InsertAt(front, 0);
    atZero := ll.Get(0);
    atOne := ll.Get(1);
    ll.InsertAt(middle, 6);
    atFive := ll.Get(5);
    atSix := ll.Get(6);
    atSeven := ll.Get(7);
  }

  /** The `RemoveData` test: removing positions 4, 0 and then 1 of 15 34 72 55 67 leaves 34 55. */
  method RemoveDataScenario() returns (atZero: Result<int>, atOne: Result<int>)
    ensures atZero == Ok(34) && atOne == Ok(55)
  {
    var ll := FromValues([15, 34, 72, 55, 67]);
    ll.RemoveAt(4);
    ll.RemoveAt(0);
    ll.RemoveAt(1);
    atZero := ll.Get(0);
    atOne := ll.Get(1);
  }
}

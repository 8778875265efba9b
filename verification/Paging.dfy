/** Page arithmetic and page states of page-state.ts. */
module Paging {
  import opened Basics
  import opened Text

  // ----- pages of a list -----

  /** clampPageOffset, on whole numbers. */
  function ClampPageOffset(total: int, offset: int, pageSize: int): nat {
    var size, n, off := Max(1, pageSize), Max(0, total), Max(0, offset);
    if n == 0 then 0
    else if off >= n then Floor(n - 1, size)
    else Floor(off, size)
  }

  /** Math.floor(x / size) * size */
  function Floor(x: nat, size: int): (f: nat)
    requires size > 0
    ensures f <= x < f + size
  {
    var q := x / size;
    assert x == q * size + x % size;
    Product(q, size);
    q * size
  }

  lemma Product(a: nat, b: nat)
    ensures a * b >= 0
  {
  }

  function PageSlice<T>(rows: seq<T>, offset: int, pageSize: int): seq<T> {
    var size := Max(1, pageSize);
    var start := ClampPageOffset(|rows|, offset, size);
    Slice(rows, start, start + size)
  }

  /** rows.slice(start, end) for bounds that are not negative. */
  function Slice<T>(rows: seq<T>, start: nat, end: nat): seq<T> {
    var hi := if end <= |rows| then end else |rows|;
    if start <= hi then rows[start..hi] else []
  }

  /** p is where a page begins: 0, size, 2 * size and so on, before the end of the list. */
  predicate PageStart(total: int, p: nat, size: int)
    requires size > 0
  {
    p % size == 0 && (p < total || p == 0)
  }

  lemma {:induction false} Multiple(k: nat, size: nat)
    requires size > 0
    ensures k * size % size == 0 && k * size / size == k
  {
    if k > 0 {
      Multiple(k - 1, size);
      var a := (k - 1) * size;
      assert k * size == a + size;
      assert a == (k - 1) * size + 0;
      DivStep(a, size);
    }
  }

  lemma DivStep(a: nat, size: nat)
    requires size > 0
    ensures (a + size) / size == a / size + 1 && (a + size) % size == a % size
  {
    var q, r := a / size, a % size;
    assert a + size == (q + 1) * size + r;
    DivUnique(a + size, size, q + 1, r);
  }

  lemma DivUnique(x: nat, size: nat, q: nat, r: nat)
    requires size > 0 && x == q * size + r && r < size
    ensures x / size == q && x % size == r
  {
    var q', r' := x / size, x % size;
    assert x == q' * size + r' && r' < size;
    if q < q' {
      Larger(q, q', size);
    } else if q' < q {
      Larger(q', q, size);
    }
  }

  lemma {:induction false} Larger(a: nat, b: nat, size: nat)
    requires a < b
    ensures a * size + size <= b * size
  {
    assert b * size == (b - 1) * size + size;
    if a < b - 1 {
      Larger(a, b - 1, size);
    }
  }

  /** Two page starts are one page size apart, or more, or equal. */
  lemma StartsApart(p: nat, q: nat, size: int)
    requires size > 0 && p % size == 0 && q % size == 0 && p < q
    ensures p + size <= q
  {
    var a, b := p / size, q / size;
    assert p == a * size && q == b * size;
    if b <= a {
      if b < a {
        Larger(b, a, size);
      }
    } else {
      Larger(a, b, size);
    }
  }

  /** The clamped offset is the one page start whose page holds the wanted row: the row asked
      for, the first row for a negative offset, the last row for an offset past the end. */
  lemma ClampFindsThePage(total: int, offset: int, pageSize: int, p: nat)
    requires total > 0
    ensures var size := Max(1, pageSize);
            var row := if offset < 0 then 0 else if offset < total then offset else total - 1;
            ClampPageOffset(total, offset, pageSize) == p <==> PageStart(total, p, size) && p <= row < p + size
  {
    var size := Max(1, pageSize);
    var row := if offset < 0 then 0 else if offset < total then offset else total - 1;
    var c := ClampPageOffset(total, offset, pageSize);
    assert c == Floor(row, size);
    Multiple(row / size, size);
    if p % size == 0 && p <= row < p + size {
      if p < c {
        StartsApart(p, c, size);
      } else if c < p {
        StartsApart(c, p, size);
      }
    }
  }

  lemma ClampIdempotent(total: int, offset: int, pageSize: int)
    ensures var p := ClampPageOffset(total, offset, pageSize);
            ClampPageOffset(total, p, pageSize) == p && PageStart(total, p, Max(1, pageSize))
  {
    if total > 0 {
      var p := ClampPageOffset(total, offset, pageSize);
      ClampFindsThePage(total, offset, pageSize, p);
      hide ClampPageOffset;
      ClampFindsThePage(total, p, pageSize, p);
    }
  }

  /** Every row is on the page shown for its own index; in particular a list that has rows
      never shows an empty page. */
  lemma RowIsOnItsPage<T>(rows: seq<T>, offset: int, pageSize: int)
    requires rows != []
    ensures PageSlice(rows, offset, pageSize) != []
    ensures 0 <= offset < |rows| ==>
              var p := ClampPageOffset(|rows|, offset, pageSize);
              p <= offset < p + |PageSlice(rows, offset, pageSize)|
              && PageSlice(rows, offset, pageSize)[offset - p] == rows[offset]
  {
    var p := ClampPageOffset(|rows|, offset, pageSize);
    ClampFindsThePage(|rows|, offset, pageSize, p);
  }

  /** The first k pages, one after the other. */
  function Pages<T>(rows: seq<T>, pageSize: int, k: nat): seq<T> {
    if k == 0 then []
    else
      Product(k - 1, Max(1, pageSize));
      Pages(rows, pageSize, k - 1) + PageSlice(rows, (k - 1) * Max(1, pageSize), pageSize)
  }

  lemma {:induction false} FirstPages<T>(rows: seq<T>, pageSize: int, k: nat)
    requires k == 0 || (k - 1) * Max(1, pageSize) < |rows|
    ensures Pages(rows, pageSize, k) == Slice(rows, 0, Upto(k, pageSize))
  {
    var size := Max(1, pageSize);
    if k > 0 {
      var start := Upto(k - 1, pageSize);
      assert start + size == Upto(k, pageSize) by {
        assert (k - 1) * size + size == k * size;
      }
      if k > 1 {
        assert (k - 2) * size <= (k - 1) * size;
      }
      FirstPages(rows, pageSize, k - 1);
      Multiple(k - 1, size);
      ClampFindsThePage(|rows|, start, pageSize, start);
      hide ClampPageOffset;
    }
  }

  function Upto(k: nat, pageSize: int): nat {
    Product(k, Max(1, pageSize));
    k * Max(1, pageSize)
  }

  /** The number of pages of n rows. */
  function PageCount(n: nat, size: int): (k: nat)
    requires size > 0
    ensures k * size >= n && (k > 0 ==> (k - 1) * size < n)
  {
    var k := (n + size - 1) / size;
    assert n + size - 1 == k * size + (n + size - 1) % size;
    assert (k - 1) * size == k * size - size;
    k
  }

  /** The pages tile the list: laid end to end they are the list. */
  lemma PagesTile<T>(rows: seq<T>, pageSize: int)
    ensures Pages(rows, pageSize, PageCount(|rows|, Max(1, pageSize))) == rows
  {
    var k := PageCount(|rows|, Max(1, pageSize));
    FirstPages(rows, pageSize, k);
    assert Slice(rows, 0, Upto(k, pageSize)) == rows;
  }

  // ----- what a page shows -----

  datatype Kind = Loading | Empty | Error | Permission | Stale | Ready

  datatype PageState = PageState(kind: Kind, showItems: bool, showEmpty: bool)

  /** What a load left behind: nothing, or a truthy thrown value with its message. */
  datatype Failure = NoFailure | Thrown(message: string)

  /** The number in front of the message, of exactly three digits, or 0. */
  function ErrorStatus(message: string): nat {
    if |message| >= 3 && IsDigit(message[0]) && IsDigit(message[1]) && IsDigit(message[2])
       && (|message| == 3 || !IsWordChar(message[3]))
    then (message[0] - '0') as nat * 100 + (message[1] - '0') as nat * 10 + (message[2] - '0') as nat
    else 0
  }

  predicate IsPermissionError(f: Failure) {
    f.Thrown? && (ErrorStatus(f.message) == 401 || ErrorStatus(f.message) == 403)
  }

  function ClassifyPageState(loading: bool, loaded: bool, error: Failure, itemCount: int, keep: bool): PageState {
    var count := Max(0, itemCount);
    var keepStale := keep && loaded && count > 0;
    if !loaded && loading then PageState(Loading, false, false)
    else if error.Thrown? && IsPermissionError(error) then PageState(Permission, false, false)
    else if loaded && loading then PageState(Loading, count > 0, false)
    else if error.Thrown? && keepStale then PageState(Stale, true, false)
    else if error.Thrown? then PageState(Error, false, false)
    else if !loaded then PageState(if loading then Loading else Error, false, false)
    else if count == 0 then PageState(Empty, false, true)
    else PageState(Ready, true, false)
  }

  /** inventoryBlocksMutation, which activityActionsBlocked passes on. */
  predicate Blocks(kind: Kind) {
    kind.Error? || kind.Permission?
  }

  lemma PermissionMessages(message: string)
    ensures IsPermissionError(Thrown(message))
       <==> ("401" <= message || "403" <= message) && (|message| == 3 || !IsWordChar(message[3]))
  {
    if |message| >= 3 && IsDigit(message[0]) && IsDigit(message[1]) && IsDigit(message[2]) {
      assert message[..3] == [message[0], message[1], message[2]];
      var a, b, c := (message[0] - '0') as nat, (message[1] - '0') as nat, (message[2] - '0') as nat;
      assert a * 100 + b * 10 + c == 401 ==> a == 4 && b == 0 && c == 1;
      assert a * 100 + b * 10 + c == 403 ==> a == 4 && b == 0 && c == 3;
    }
  }

  /** Empty only after a finished load with nothing in it; items never beside a refusal, and
      after any other failure only when stale ones may be kept. */
  lemma StatesMean(loading: bool, loaded: bool, error: Failure, itemCount: int, keep: bool)
    ensures var s := ClassifyPageState(loading, loaded, error, itemCount, keep);
            && (s.showEmpty <==> s.kind.Empty?)
            && (s.showEmpty <==> loaded && !loading && error.NoFailure? && itemCount <= 0)
            && (s.showItems <==> loaded && itemCount > 0 && !IsPermissionError(error)
                                 && (loading || error.NoFailure? || keep))
            && (s.kind.Permission? <==> IsPermissionError(error) && (loaded || !loading))
            && (s.kind.Loading? <==> loading && !s.kind.Permission?)
            && (s.kind.Stale? <==> s.showItems && !loading && error.Thrown?)
            && (s.kind.Ready? <==> s.showItems && !loading && error.NoFailure?)
            && (Blocks(s.kind) ==> !s.showItems)
  {
  }
}

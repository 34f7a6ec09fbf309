/**
 Growable column batches: rows of varying length, back to back in one data buffer, with one
 (offset, length) entry per row in a metadata buffer. Both buffers may be shared by two batches.
 */
module ColumnBatch {
  import opened Bytes
  import opened Options

  datatype Meta = Meta(offset: nat, len: nat)

  const HALF: nat := 0x8000_0000

  // ----- Growth -----

  /** The reserve after `k` doublings in 32 bits. */
  function Doubled(r: nat, k: nat): nat {
    if k == 0 then r else Wrap(2 * Doubled(r, k - 1))
  }

  /** The do-while loop of `ensure_space` leaves after some number of doublings. */
  ghost predicate GrowthEnds(r: nat, required: nat) {
    exists k: nat :: k >= 1 && Doubled(r, k) >= required
  }

  /** The reserve that the loop leaves with, if it leaves within `turns` turns. */
  function Settles(r: nat, required: nat, turns: nat): (g: Option<nat>)
    ensures g.Some? && r < required ==> required <= g.value < 2 * required && g.value < U32
    decreases turns, r
  {
    if turns == 0 then None
    else
      var d := Wrap(2 * r);
      if d >= required then Some(d) else Settles(d, required, turns - 1)
  }

  /** After 32 doublings nothing is left of any reserve, so only the first 31 count. */
  const TURNS: nat := 31

  /** One of the `n` doublings after the `j`-th reaches the required space. */
  ghost predicate Reached(r: nat, required: nat, j: nat, n: nat) {
    exists k: nat :: j < k <= j + n && Doubled(r, k) >= required
  }

  lemma {:induction false} SettlesReaches(r: nat, required: nat, j: nat, n: nat)
    ensures Settles(Doubled(r, j), required, n).Some? <==> Reached(r, required, j, n)
    decreases n
  {
    if n > 0 {
      var next := Doubled(r, j + 1);
      if next < required {
        SettlesReaches(r, required, j + 1, n - 1);
        assert Reached(r, required, j, n) <==> Reached(r, required, j + 1, n - 1);
      }
    }
  }

  function Pow2(n: nat): (p: nat)
    ensures p > 0
  {
    if n == 0 then 1 else 2 * Pow2(n - 1)
  }

  lemma {:induction false} Pow2Sum(a: nat, b: nat)
    ensures Pow2(a + b) == Pow2(a) * Pow2(b)
    decreases a
  {
    if a > 0 {
      Pow2Sum(a - 1, b);
      TwiceProduct(Pow2(a - 1), Pow2(b));
    }
  }

  lemma TwiceProduct(x: nat, y: nat)
    ensures 2 * (x * y) == (2 * x) * y
  {
  }

  lemma Pow2Words()
    ensures Pow2(31) == HALF && Pow2(32) == U32
  {
    Sixteen(0);
    Sixteen(4);
    Sixteen(8);
    Sixteen(12);
    Sixteen(16);
    Sixteen(20);
    Sixteen(24);
    Sixteen(28);
  }

  lemma Sixteen(n: nat)
    ensures Pow2(n + 4) == 16 * Pow2(n)
  {
    assert Pow2(n + 4) == 2 * Pow2(n + 3) == 4 * Pow2(n + 2) == 8 * Pow2(n + 1);
  }

  /** Each doubling clears one more low bit. */
  lemma {:induction false} LowBitsClear(r: nat, k: nat) returns (q: nat)
    requires r < U32 && k <= 32
    ensures Doubled(r, k) == Pow2(k) * q && Doubled(r, k) < U32
    decreases k
  {
    if k == 0 {
      q := r;
    } else {
      q := LowBitsClear(r, k - 1);
      var p := Pow2(k - 1);
      assert 2 * (p * q) == (2 * p) * q;
      if 2 * Doubled(r, k - 1) >= U32 {
        Pow2Sum(k, 32 - k);
        Pow2Words();
        q := CutMultiple(Pow2(k), Pow2(32 - k), 2 * Doubled(r, k - 1), q);
      }
    }
  }

  /** Cutting a multiple of `p` to 32 bits leaves one, when `p` divides the range. */
  lemma CutMultiple(p: nat, top: nat, v: nat, q: nat) returns (c: nat)
    requires p > 0 && v == p * q && p * top == U32 && U32 <= v < 2 * U32
    ensures Wrap(v) == p * c
  {
    assert Wrap(v) == v - U32;
    var d := q - top;
    assert p * d == p * q - p * top;
    Sign(p, d);
    c := d;
  }

  lemma Sign(p: nat, x: int)
    requires p > 0
    ensures x < 0 ==> p * x < 0
    ensures x >= 1 ==> p * x >= p
  {
    if x < 0 { assert p * -x > 0; }
    if x >= 1 { assert p * (x - 1) >= 0; }
  }

  lemma {:induction false} NothingLeft(r: nat, k: nat)
    requires r < U32 && k >= 32
    ensures Doubled(r, k) == 0
    decreases k
  {
    if k == 32 {
      var q := LowBitsClear(r, 32);
      Pow2Words();
      Sign(U32, q);
    } else {
      NothingLeft(r, k - 1);
    }
  }

  /** Growth ends exactly when one of the first 31 doublings reaches the required space. */
  lemma GrowthEndsIff(r: nat, required: nat)
    requires r < required < U32
    ensures GrowthEnds(r, required) <==> Settles(r, required, TURNS).Some?
  {
    SettlesReaches(r, required, 0, TURNS);
    forall k: nat | k >= 32 ensures Doubled(r, k) < required { NothingLeft(r, k); }
    assert Doubled(r, 0) == r;
    assert GrowthEnds(r, required) <==> Reached(r, required, 0, TURNS);
  }

  lemma {:induction false} DoublesUp(r: nat, required: nat, k: nat) returns (n: nat)
    requires 1 <= Doubled(r, k) < required <= HALF
    ensures n > k && required <= Doubled(r, n)
    decreases required - Doubled(r, k)
  {
    var next := Doubled(r, k + 1);
    assert next == 2 * Doubled(r, k);
    if next >= required {
      n := k + 1;
    } else {
      n := DoublesUp(r, required, k + 1);
    }
  }

  /** Up to half the 32-bit range it ends exactly when something was reserved before. */
  lemma HalfRangeEndsIff(r: nat, required: nat)
    requires r < required <= HALF
    ensures GrowthEnds(r, required) <==> r >= 1
  {
    if r >= 1 {
      var n := DoublesUp(r, required, 0);
    } else {
      forall k: nat ensures Doubled(r, k) == 0 { ZeroStays(k); }
    }
  }

  lemma {:induction false} ZeroStays(k: nat)
    ensures Doubled(0, k) == 0
  {
    if k > 0 { ZeroStays(k - 1); }
  }

  /** Above it a positive reserve can fail as well: from one, the reserve steps over the target to zero. */
  lemma GrowthFailsAboveHalf()
    ensures !GrowthEnds(1, HALF + 1)
  {
    forall k: nat ensures Doubled(1, k) <= HALF {
      if k <= 31 { FromOne(k); } else { NothingLeft(1, k); }
    }
  }

  lemma {:induction false} FromOne(k: nat)
    requires k <= 31
    ensures Doubled(1, k) == Pow2(k) <= HALF
  {
    Pow2Words();
    Pow2Grows(k, 31);
    if k > 0 { FromOne(k - 1); }
  }

  lemma {:induction false} Pow2Grows(a: nat, b: nat)
    requires a <= b
    ensures Pow2(a) <= Pow2(b)
    decreases b
  {
    if a < b { Pow2Grows(a, b - 1); }
  }

  /** A row of `len` elements fits: its end is a 32-bit number and the reserve is or grows large enough. */
  predicate Fits(occupied: nat, reserved: nat, len: nat) {
    && occupied + len < U32
    && (occupied + len <= reserved || Settles(reserved, occupied + len, TURNS).Some?)
  }

  /** The reserve after making room for `required` elements. */
  function Grown(reserved: nat, required: nat): (g: nat)
    requires required <= reserved || Settles(reserved, required, TURNS).Some?
    ensures required <= g && reserved <= g && (required > reserved ==> g < 2 * required)
  {
    if required <= reserved then reserved else Settles(reserved, required, TURNS).value
  }

  // ----- Rows -----

  function End(ms: seq<Meta>): nat {
    if ms == [] then 0 else ms[|ms| - 1].offset + ms[|ms| - 1].len
  }

  /** Each row starts where the one before it ends. */
  predicate Contiguous(ms: seq<Meta>) {
    forall i :: 0 <= i < |ms| ==> ms[i].offset == End(ms[..i])
  }

  lemma {:induction false} EndsGrow(ms: seq<Meta>, i: nat, j: nat)
    requires Contiguous(ms) && i <= j <= |ms|
    ensures End(ms[..i]) <= End(ms[..j])
  {
    if i < j {
      EndsGrow(ms, i, j - 1);
      assert ms[..j][..j - 1] == ms[..j - 1];
    }
  }

  predicate InData(d: seq<int>, ms: seq<Meta>) {
    forall i :: 0 <= i < |ms| ==> ms[i].offset + ms[i].len <= |d|
  }

  function Row(d: seq<int>, m: Meta): seq<int>
    requires m.offset + m.len <= |d|
  {
    d[m.offset..m.offset + m.len]
  }

  function RowsOf(d: seq<int>, ms: seq<Meta>): (r: seq<seq<int>>)
    requires InData(d, ms)
    ensures |r| == |ms|
  {
    seq(|ms|, i requires 0 <= i < |ms| => Row(d, ms[i]))
  }

  lemma ContiguousInData(d: seq<int>, ms: seq<Meta>)
    requires Contiguous(ms) && End(ms) <= |d|
    ensures InData(d, ms)
  {
    forall i | 0 <= i < |ms| ensures ms[i].offset + ms[i].len <= |d| {
      EndsGrow(ms, i + 1, |ms|);
      assert ms[..i + 1][i] == ms[i] && ms[..|ms|] == ms;
    }
  }

  /** Rows depend only on the data below their common end. */
  lemma RowsKept(d: seq<int>, e: seq<int>, ms: seq<Meta>)
    requires Contiguous(ms) && End(ms) <= |d| && End(ms) <= |e| && d[..End(ms)] == e[..End(ms)]
    ensures InData(d, ms) && InData(e, ms) && RowsOf(d, ms) == RowsOf(e, ms)
  {
    ContiguousInData(d, ms);
    ContiguousInData(d[..End(ms)], ms);
    ContiguousInData(e, ms);
    forall i | 0 <= i < |ms| ensures Row(d, ms[i]) == Row(e, ms[i]) {
      assert Row(d, ms[i]) == Row(d[..End(ms)], ms[i]);
      assert Row(e, ms[i]) == Row(e[..End(ms)], ms[i]);
    }
  }

  lemma RowAdded(d: seq<int>, ms: seq<Meta>, row: seq<int>)
    requires Contiguous(ms) && End(ms) + |row| <= |d| && d[End(ms)..End(ms) + |row|] == row
    ensures var all := ms + [Meta(End(ms), |row|)];
      Contiguous(all) && End(all) == End(ms) + |row| && InData(d, ms) && InData(d, all)
      && RowsOf(d, all) == RowsOf(d, ms) + [row]
  {
    var all := ms + [Meta(End(ms), |row|)];
    forall i | 0 <= i < |all| ensures all[i].offset == End(all[..i]) {
      assert all[..i] == ms[..i];
      if i == |ms| { assert ms[..i] == ms; }
    }
    ContiguousInData(d, ms);
  }

  /** One more row behind rows that a move to another buffer kept. */
  lemma RowsMoved(d: seq<int>, e: seq<int>, ms: seq<Meta>, row: seq<int>)
    requires Contiguous(ms) && End(ms) <= |d| && End(ms) + |row| <= |e|
    requires e[..End(ms)] == d[..End(ms)] && e[End(ms)..End(ms) + |row|] == row
    ensures var all := ms + [Meta(End(ms), |row|)];
      Contiguous(all) && End(all) == End(ms) + |row| && InData(d, ms) && InData(e, all)
      && RowsOf(e, all) == RowsOf(d, ms) + [row]
  {
    RowsKept(d, e, ms);
    RowAdded(e, ms, row);
  }

  /** The header word that the metadata buffer starts with. */
  class Header {
    var used: nat
    constructor () ensures used == 0 { used := 0; }
  }

  class Batch {
    var header: Header
    var meta: array<Meta>
    var data: array<int>
    var size: nat
    var occupied: nat
    var reserved: nat

    /** Enough for every memory access to stay inside the buffers. */
    ghost predicate Safe()
      reads this
    {
      size <= meta.Length && occupied <= reserved == data.Length
    }

    /** The first rows are `rows`, and further pushes on either sharer write after them. */
    ghost predicate Has(rows: seq<seq<int>>)
      reads this, meta, data
    {
      && Safe() && |rows| <= size
      && Contiguous(meta[..|rows|]) && End(meta[..|rows|]) <= occupied
      && InData(data[..], meta[..|rows|]) && RowsOf(data[..], meta[..|rows|]) == rows
    }

    /** The batch holds exactly `rows`, back to back. */
    ghost predicate Holds(rows: seq<seq<int>>)
      reads this, meta, data
    {
      Has(rows) && |rows| == size && End(meta[..size]) == occupied
    }

    constructor (capacity: nat, reserve: nat)
      ensures fresh(meta) && fresh(data) && fresh(header) && meta.Length == capacity && reserved == reserve
      ensures Holds([])
    {
      header := new Header();
      meta := new Meta[capacity](_ => Meta(0, 0));
      data := new int[reserve](_ => 0);
      size, occupied, reserved := 0, 0, reserve;
    }

    /** `ensure_space`: double the reserve until the row fits and copy what is there. */
    method EnsureSpace(len: nat)
      requires Safe() && Fits(occupied, reserved, len)
      modifies this`reserved, this`data
      ensures Safe() && reserved == Grown(old(reserved), occupied + len)
      ensures if occupied + len <= old(reserved) then data == old(data) else fresh(data)
      ensures data[..occupied] == old(data[..occupied])
    {
      var required := occupied + len;
      if required > reserved {
        var r: nat := Wrap(2 * reserved);
        ghost var left: nat := TURNS - 1;
        while r < required
          invariant Settles(reserved, required, TURNS) == if r >= required then Some(r) else Settles(r, required, left)
          decreases left
        {
          r := Wrap(2 * r);
          left := left - 1;
        }
        var bigger := new int[r](_ => 0);
        for i := 0 to occupied
          modifies bigger
          invariant forall j :: 0 <= j < i ==> bigger[j] == data[j]
        {
          bigger[i] := data[i];
        }
        data, reserved := bigger, r;
        assert data[..occupied] == old(data[..occupied]);
      }
    }

    /** `push_back_helper`. */
    method Push(row: seq<int>)
      requires Safe() && size < meta.Length && Fits(occupied, reserved, |row|)
      modifies this`size, this`occupied, this`reserved, this`data, meta, data
      ensures Safe() && size == old(size) + 1 && occupied == old(occupied) + |row|
      ensures reserved == Grown(old(reserved), occupied)
      ensures if occupied <= old(reserved) then data == old(data) else fresh(data)
      ensures meta[old(size)] == Meta(old(occupied), |row|) && data[old(occupied)..occupied] == row
      ensures data[..old(occupied)] == old(data[..occupied])
      ensures forall i :: 0 <= i < meta.Length && i != old(size) ==> meta[i] == old(meta[i])
      ensures forall j :: 0 <= j < old(occupied) ==> old(data)[j] == old(data[j])
    {
      EnsureSpace(|row|);
      meta[size] := Meta(occupied, |row|);
      size := size + 1;
      CopyIn(row);
      occupied := occupied + |row|;
    }

    /** The second `push_back_helper`: a row and one more element. */
    method PushWith(src: seq<int>, val: int)
      requires Safe() && size < meta.Length && Fits(occupied, reserved, |src| + 1)
      modifies this`size, this`occupied, this`reserved, this`data, meta, data
      ensures Safe() && size == old(size) + 1 && occupied == old(occupied) + |src| + 1
      ensures reserved == Grown(old(reserved), occupied)
      ensures if occupied <= old(reserved) then data == old(data) else fresh(data)
      ensures meta[old(size)] == Meta(old(occupied), |src| + 1) && data[old(occupied)..occupied] == src + [val]
      ensures data[..old(occupied)] == old(data[..occupied])
      ensures forall i :: 0 <= i < meta.Length && i != old(size) ==> meta[i] == old(meta[i])
    {
      var total := |src| + 1;
      EnsureSpace(total);
      meta[size] := Meta(occupied, total);
      size := size + 1;
      CopyIn(src);
      occupied := occupied + total;
      data[occupied - 1] := val;
      assert data[old(occupied)..occupied - 1] == src;
    }

    /** The copy behind the rows that are there. */
    method CopyIn(row: seq<int>)
      requires occupied + |row| <= data.Length
      modifies data
      ensures data[occupied..occupied + |row|] == row
      ensures forall j :: 0 <= j < data.Length && !(occupied <= j < occupied + |row|) ==> data[j] == old(data[j])
    {
      for i := 0 to |row|
        invariant data[occupied..occupied + i] == row[..i]
        invariant forall j :: 0 <= j < data.Length && !(occupied <= j < occupied + |row|) ==> data[j] == old(data[j])
      {
        data[occupied + i] := row[i];
        assert data[occupied..occupied + i + 1] == data[occupied..occupied + i] + [row[i]];
      }
    }

    /** A push on a batch that holds `rows` appends the row, whatever the growth does. */
    method Append(row: seq<int>, ghost rows: seq<seq<int>>)
      requires Holds(rows) && size < meta.Length && Fits(occupied, reserved, |row|)
      modifies this`size, this`occupied, this`reserved, this`data, meta, data
      ensures Holds(rows + [row])
    {
      ghost var ms := meta[..size];
      ghost var d := data[..];
      ghost var o := occupied;
      Push(row);
      assert meta[..size] == ms + [Meta(o, |row|)];
      assert data[..][..o] == d[..o] && data[..][o..o + |row|] == row;
      RowsMoved(d, data[..], ms, row);
    }

    /** Likewise for a row with one more element. */
    method AppendWith(src: seq<int>, val: int, ghost rows: seq<seq<int>>)
      requires Holds(rows) && size < meta.Length && Fits(occupied, reserved, |src| + 1)
      modifies this`size, this`occupied, this`reserved, this`data, meta, data
      ensures Holds(rows + [src + [val]])
    {
      ghost var ms := meta[..size];
      ghost var d := data[..];
      ghost var o := occupied;
      PushWith(src, val);
      ghost var row := src + [val];
      assert meta[..size] == ms + [Meta(o, |row|)];
      assert data[..][..o] == d[..o] && data[..][o..o + |row|] == row;
      RowsMoved(d, data[..], ms, row);
    }

    /** `operator[]`. */
    method At(i: nat) returns (row: seq<int>)
      requires i < size <= meta.Length && meta[i].offset + meta[i].len <= data.Length
      ensures row == Row(data[..], meta[i])
    {
      row := data[meta[i].offset..meta[i].offset + meta[i].len];
    }

    /** The same through a row entry that may point outside the data. */
    method TryAt(i: nat) returns (row: Option<seq<int>>)
      requires i < size <= meta.Length
      ensures row == if meta[i].offset + meta[i].len <= data.Length then Some(Row(data[..], meta[i])) else None
    {
      if meta[i].offset + meta[i].len <= data.Length {
        var r := At(i);
        row := Some(r);
      } else {
        row := None;
      }
    }

    constructor Sharing(b: Batch)
      requires b.Safe()
      ensures header == b.header && meta == b.meta && data == b.data
      ensures size == b.size && occupied == b.occupied && reserved == b.reserved
    {
      header, meta, data := b.header, b.meta, b.data;
      size, occupied, reserved := b.size, b.occupied, b.reserved;
    }

    /** `dump_to`: cut both buffers to what is used and give them away. */
    method Dump(ghost rows: seq<seq<int>>) returns (used: nat, ms: seq<Meta>, d: seq<int>)
      requires Holds(rows)
      modifies this, header
      ensures used == |ms| == |rows| && Contiguous(ms) && End(ms) == |d|
      ensures InData(d, ms) && RowsOf(d, ms) == rows
      ensures Holds([])
    {
      header.used := size;
      used, ms, d := header.used, meta[..header.used], data[..occupied];
      assert data[..][..End(ms)] == d[..End(ms)];
      RowsKept(data[..], d, ms);
      meta, data := new Meta[0], new int[0];
      size, occupied, reserved := 0, 0, 0;
    }

    /** The reloading constructor: reads the last row's entry to learn how much is occupied. */
    constructor Loaded(used: nat, ms: seq<Meta>, d: seq<int>)
      requires 1 <= used <= |ms| && Contiguous(ms[..used]) && End(ms[..used]) == |d|
      ensures fresh(meta) && fresh(data) && size == used && reserved == occupied == |d|
      ensures InData(d, ms[..used]) && Holds(RowsOf(d, ms[..used]))
    {
      header := new Header();
      meta := new Meta[|ms|](i requires 0 <= i < |ms| => ms[i]);
      data := new int[|d|](i requires 0 <= i < |d| => d[i]);
      size := used;
      var last := ms[used - 1];
      occupied := last.len + last.offset;
      reserved := last.len + last.offset;
      new;
      assert meta[..used] == ms[..used] && data[..] == d;
      ContiguousInData(d, ms[..used]);
    }
  }

  // ----- Dump and reload -----

  /** Reloading reads the entry of the last row; with no row that is the entry before the first. */
  method Reload(used: nat, ms: seq<Meta>, d: seq<int>) returns (c: Option<Batch>)
    requires used <= |ms| && Contiguous(ms[..used]) && End(ms[..used]) == |d|
    ensures c.None? <==> used == 0
    ensures c.Some? ==> fresh(c.value) && InData(d, ms[..used]) && c.value.Holds(RowsOf(d, ms[..used]))
    ensures c.Some? ==> c.value.reserved == c.value.occupied == |d|
  {
    if used == 0 {
      return None;
    }
    var b := new Batch.Loaded(used, ms, d);
    c := Some(b);
  }

  /** Dumping and reloading gives every row back, exactly when there is a row. */
  method DumpAndLoad(b: Batch, ghost rows: seq<seq<int>>) returns (c: Option<Batch>)
    requires b.Holds(rows)
    modifies b, b.header
    ensures c.None? <==> rows == []
    ensures c.Some? ==> fresh(c.value) && c.value.Holds(rows) && c.value.reserved == c.value.occupied
    ensures b.Holds([])
  {
    var used, ms, d := b.Dump(rows);
    assert ms[..used] == ms;
    c := Reload(used, ms, d);
  }

  /** A loaded batch reserves what it occupies, so it can grow exactly when some row was not empty. */
  lemma LoadedGrowsIff(ms: seq<Meta>, len: nat)
    requires ms != [] && Contiguous(ms) && len > 0 && End(ms) + len <= HALF
    ensures GrowthEnds(End(ms), End(ms) + len) <==> exists i :: 0 <= i < |ms| && ms[i].len > 0
  {
    HalfRangeEndsIff(End(ms), End(ms) + len);
    AllEmptyIff(ms);
  }

  lemma {:induction false} AllEmptyIff(ms: seq<Meta>)
    requires Contiguous(ms)
    ensures End(ms) >= 1 <==> exists i :: 0 <= i < |ms| && ms[i].len > 0
  {
    if ms != [] {
      var n := |ms| - 1;
      var some := ms[..n];
      assert forall i :: 0 <= i < n ==> some[..i] == ms[..i];
      AllEmptyIff(some);
      assert ms[n].offset == End(some);
    }
  }

  // ----- Sharing -----

  /** One push on `a`, seen by `b`, which shares any of its buffers: rows that both have stay. */
  method PushOne(a: Batch, b: Batch, row: seq<int>, ghost rows: seq<seq<int>>)
    requires a != b && a.meta == b.meta && a.Has(rows) && b.Has(rows)
    requires a.size < a.meta.Length && Fits(a.occupied, a.reserved, |row|)
    modifies a`size, a`occupied, a`reserved, a`data, a.meta, a.data
    ensures a.Has(rows) && b.Has(rows)
    ensures a.size == old(a.size) + 1 && a.occupied == old(a.occupied) + |row|
    ensures a.reserved == Grown(old(a.reserved), a.occupied)
    ensures a.data == old(a.data) || fresh(a.data)
  {
    ghost var n := |rows|;
    ghost var ms := a.meta[..n];
    ghost var d, e := a.data[..], b.data[..];
    a.Push(row);
    assert a.meta[..n] == ms;
    assert a.data[..][..End(ms)] == d[..End(ms)];
    RowsKept(d, a.data[..], ms);
    assert b.data[..][..End(ms)] == e[..End(ms)];
    RowsKept(e, b.data[..], ms);
  }

  /** A later push: on the first sharer or on the second. */
  datatype Later = Later(onFirst: bool, row: seq<int>)

  /** A batch of this size, capacity, occupation and reserve can take its part of the plan, push by push. */
  predicate Takes(size: nat, capacity: nat, occupied: nat, reserved: nat, plan: seq<Later>, first: bool)
    decreases |plan|
  {
    if plan == [] then true
    else if plan[0].onFirst != first then Takes(size, capacity, occupied, reserved, plan[1..], first)
    else
      var end := occupied + |plan[0].row|;
      && size < capacity && Fits(occupied, reserved, |plan[0].row|)
      && Takes(size + 1, capacity, end, Grown(reserved, end), plan[1..], first)
  }

  ghost predicate Room(b: Batch, plan: seq<Later>, first: bool)
    reads b
  {
    Takes(b.size, b.meta.Length, b.occupied, b.reserved, plan, first)
  }

  /** The next push of the plan, which is on `x`. */
  method PushHead(x: Batch, y: Batch, plan: seq<Later>, first: bool, ghost rows: seq<seq<int>>)
    requires x != y && x.meta == y.meta && x.Has(rows) && y.Has(rows)
    requires plan != [] && plan[0].onFirst == first && Room(x, plan, first) && Room(y, plan, !first)
    modifies x`size, x`occupied, x`reserved, x`data, x.meta, x.data
    ensures x.Has(rows) && y.Has(rows) && (x.data == old(x.data) || fresh(x.data))
    ensures Room(x, plan[1..], first) && Room(y, plan[1..], !first)
  {
    PushOne(x, y, plan[0].row, rows);
  }

  /** Rows present when a batch is shared stay in both copies under any later pushes on either. */
  method ShareAndPush(a: Batch, plan: seq<Later>, ghost rows: seq<seq<int>>) returns (b: Batch)
    requires a.Holds(rows) && Room(a, plan, true) && Room(a, plan, false)
    modifies a, a.meta, a.data
    ensures fresh(b) && a.Has(rows) && b.Has(rows)
  {
    b := new Batch.Sharing(a);
    var rest := plan;
    while rest != []
      invariant a != b && a.meta == b.meta == old(a.meta) && a.Has(rows) && b.Has(rows)
      invariant a.data == old(a.data) || fresh(a.data)
      invariant b.data == old(a.data) || fresh(b.data)
      invariant Room(a, rest, true) && Room(b, rest, false)
      decreases |rest|
    {
      if rest[0].onFirst {
        PushHead(a, b, rest, true, rows);
      } else {
        PushHead(b, a, rest, false, rows);
      }
      rest := rest[1..];
    }
  }

  /**
   A row pushed on one copy after the share, then one on the other: the first copy reads its row
   back exactly when both are equally long and are the same row or had to move to a larger buffer.
   Otherwise it reads a row of the other's length, or outside its data.
   */
  method LaterRowSurvivesIff(a: Batch, x: seq<int>, y: seq<int>) returns (read: Option<seq<int>>)
    requires a.Safe() && a.size < a.meta.Length
    requires Fits(a.occupied, a.reserved, |x|) && Fits(a.occupied, a.reserved, |y|)
    modifies a, a.meta, a.data
    ensures read == Some(x) <==> |x| == |y| && (x == y || old(a.occupied) + |x| > old(a.reserved))
    ensures read == None <==> old(a.occupied) + |y| > Grown(old(a.reserved), old(a.occupied) + |x|)
    ensures read.Some? ==> |read.value| == |y|
  {
    var n, o := a.size, a.occupied;
    var b := new Batch.Sharing(a);
    a.Push(x);
    b.Push(y);
    assert a.meta[n] == Meta(o, |y|);
    assert |x| == |y| ==> a.data[o..o + |y|] == if o + |x| > old(a.reserved) then x else y;
    read := a.TryAt(n);
  }

  /** Such a loss on the smallest batch. */
  method LaterRowsClash(x: int, y: int) returns (read: Option<seq<int>>)
    ensures read == Some([y])
  {
    var a := new Batch(1, 1);
    var b := new Batch.Sharing(a);
    a.Push([x]);
    b.Push([y]);
    read := a.TryAt(0);
  }
}

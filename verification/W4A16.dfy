/** Packing 4-bit weights for the Marlin kernel and back
    (src/einf/executors/torch/dsl/w4a16_pack.py). */
module W4A16 {
  import opened Base

  // --------------------------------------------------------------- permutation

  /** The nibble interleave within a group of eight, and its inverse. */
  function Interleave(i: nat): (j: nat)
    requires i < 8
    ensures j < 8
  {
    if i < 4 then 2 * i else 2 * (i - 4) + 1
  }

  function Deinterleave(j: nat): (i: nat)
    requires j < 8
    ensures i < 8
  {
    if j % 2 == 0 then j / 2 else 4 + j / 2
  }

  /** The digits of an element: which tile, the two halves of its row, its thread group, its
      column block and its column. */
  datatype Digits = Digits(tile: nat, high: nat, tid: nat, low: nat, block: nat, col: nat) {
    ghost predicate Valid() { tile < 4 && high < 2 && tid < 4 && low < 2 && block < 2 && col < 8 }

    /** The element's index in a tile-major 16 by 64 block. */
    function Element(): nat { 256 * tile + 128 * high + 32 * tid + 16 * low + 8 * block + col }

    /** Its place in the order in which the fragments own the elements. */
    function Place(): nat { 32 * (4 * col + tid) + 8 * tile + 4 * block + 2 * high + low }
  }

  function PlaceDigits(x: nat): Digits {
    Digits(x / 8 % 4, x / 2 % 2, x / 32 % 4, x % 2, x / 4 % 2, x / 128)
  }

  function ElementDigits(v: nat): Digits {
    Digits(v / 256, v / 128 % 2, v / 32 % 4, v / 16 % 2, v / 8 % 2, v % 8)
  }

  lemma DigitsOfPlace(d: Digits)
    requires d.Valid()
    ensures d.Place() < 1024 && PlaceDigits(d.Place()) == d
  {
    var x32 := 4 * d.col + d.tid;
    var x8 := 4 * x32 + d.tile;
    var x4 := 2 * x8 + d.block;
    var x2 := 2 * x4 + d.high;
    assert d.Place() == 2 * x2 + d.low;
    assert d.Place() / 2 == x2 && d.Place() % 2 == d.low;
    assert d.Place() / 4 == x4 && d.Place() / 8 == x8;
    assert d.Place() / 32 == x32 && d.Place() / 128 == d.col;
  }

  lemma DigitsOfElement(d: Digits)
    requires d.Valid()
    ensures d.Element() < 1024 && ElementDigits(d.Element()) == d
  {
    var v := d.Element();
    assert v / 8 == 32 * d.tile + 16 * d.high + 4 * d.tid + 2 * d.low + d.block;
    assert v / 16 == 16 * d.tile + 8 * d.high + 2 * d.tid + d.low;
    assert v / 32 == 8 * d.tile + 4 * d.high + d.tid;
    assert v / 128 == 2 * d.tile + d.high;
    assert v / 256 == d.tile;
  }

  lemma PlaceOfDigits(x: nat)
    requires x < 1024
    ensures PlaceDigits(x).Valid() && PlaceDigits(x).Place() == x
  {
    assert x / 4 == x / 2 / 2 && x / 8 == x / 4 / 2 && x / 32 == x / 8 / 4 && x / 128 == x / 32 / 4;
  }

  lemma ElementOfDigits(v: nat)
    requires v < 1024
    ensures ElementDigits(v).Valid() && ElementDigits(v).Element() == v
  {
    assert v / 16 == v / 8 / 2 && v / 32 == v / 16 / 2 && v / 128 == v / 32 / 4 && v / 256 == v / 128 / 2;
  }

  /** Entry `x` of the permutation before interleaving, and where an element goes. */
  function RawEntry(x: nat): (v: nat)
    requires x < 1024
    ensures v < 1024
  {
    PlaceOfDigits(x);
    DigitsOfElement(PlaceDigits(x));
    PlaceDigits(x).Element()
  }

  function RawPlace(v: nat): (x: nat)
    requires v < 1024
    ensures x < 1024
  {
    ElementOfDigits(v);
    DigitsOfPlace(ElementDigits(v));
    ElementDigits(v).Place()
  }

  lemma RawInverse(x: nat)
    requires x < 1024
    ensures RawPlace(RawEntry(x)) == x && RawEntry(RawPlace(x)) == x
  {
    hide PlaceDigits, ElementDigits, Digits.Place, Digits.Element;
    PlaceOfDigits(x);
    DigitsOfElement(PlaceDigits(x));
    ElementOfDigits(x);
    DigitsOfPlace(ElementDigits(x));
  }

  /** With the nibbles of each group of eight interleaved. */
  function Interleaved(x: nat): (y: nat)
    requires x < 1024
    ensures y < 1024
  {
    x / 8 * 8 + Interleave(x % 8)
  }

  function Deinterleaved(y: nat): (x: nat)
    requires y < 1024
    ensures x < 1024
  {
    y / 8 * 8 + Deinterleave(y % 8)
  }

  lemma InterleaveInverse(x: nat)
    requires x < 1024
    ensures Deinterleaved(Interleaved(x)) == x && Interleaved(Deinterleaved(x)) == x
  {
    Octet(x / 8, Interleave(x % 8));
    Octet(x / 8, Deinterleave(x % 8));
    OctetInverse(x % 8);
  }

  lemma Octet(g: nat, i: nat)
    requires i < 8
    ensures (g * 8 + i) / 8 == g && (g * 8 + i) % 8 == i
  {
  }

  lemma OctetInverse(i: nat)
    requires i < 8
    ensures Deinterleave(Interleave(i)) == i && Interleave(Deinterleave(i)) == i
  {
  }

  function PermEntry(x: nat): (v: nat)
    requires x < 1024
    ensures v < 1024
  {
    RawEntry(Interleaved(x))
  }

  function PermPlace(v: nat): (x: nat)
    requires v < 1024
    ensures x < 1024
  {
    Deinterleaved(RawPlace(v))
  }

  /** The 1024-entry permutation is a bijection. */
  lemma PermInverse(x: nat)
    requires x < 1024
    ensures PermPlace(PermEntry(x)) == x && PermEntry(PermPlace(x)) == x
  {
    hide RawEntry, RawPlace, Interleaved, Deinterleaved;
    RawInverse(Interleaved(x));
    RawInverse(x);
    InterleaveInverse(x);
    InterleaveInverse(RawPlace(x));
  }

  /** `_marlin_weight_perm`, entry by entry. */
  method MarlinWeightPerm() returns (perm: seq<nat>)
    ensures |perm| == 1024 && forall x :: 0 <= x < 1024 ==> perm[x] == PermEntry(x)
  {
    hide RawEntry, Interleaved, ThreadEntry;
    var raw: seq<nat> := [];
    for thread := 0 to 32
      invariant |raw| == 32 * thread && forall x :: 0 <= x < |raw| ==> raw[x] == RawEntry(x)
    {
      var perm1 := ThreadEntries(thread);
      for tile := 0 to 4
        invariant |raw| == 32 * thread + 8 * tile && forall x :: 0 <= x < |raw| ==> raw[x] == RawEntry(x)
      {
        ghost var before := |raw|;
        var part := seq(8, i requires 0 <= i < 8 => perm1[i] + 256 * tile);
        forall i | 0 <= i < 8 ensures part[i] == RawEntry(before + i) { ThreadEntryIs(thread, tile, i); }
        raw := raw + part;
      }
    }
    perm := seq(1024, x requires 0 <= x < 1024 => raw[Interleaved(x)]);
  }

  /** The eight elements a thread owns in the first tile. */
  function ThreadEntry(thread: nat, i: nat): nat {
    16 * (2 * (thread % 4) + i % 2 + 8 * (i / 2 % 2)) + thread / 4 + 8 * (i / 4)
  }

  lemma ThreadEntryIs(thread: nat, tile: nat, i: nat)
    requires thread < 32 && tile < 4 && i < 8
    ensures ThreadEntry(thread, i) + 256 * tile == RawEntry(32 * thread + 8 * tile + i)
  {
    hide PlaceDigits;
    var d := Digits(tile, i / 2 % 2, thread % 4, i % 2, i / 4, thread / 4);
    assert i == 4 * (i / 4) + 2 * (i / 2 % 2) + i % 2;
    assert d.Place() == 32 * thread + 8 * tile + i;
    DigitsOfPlace(d);
  }

  method ThreadEntries(thread: nat) returns (perm1: seq<nat>)
    requires thread < 32
    ensures |perm1| == 8 && forall i :: 0 <= i < 8 ==> perm1[i] == ThreadEntry(thread, i)
  {
    var col, tid := thread / 4, thread % 4;
    perm1 := [];
    for block := 0 to 2
      invariant |perm1| == 4 * block && forall i :: 0 <= i < |perm1| ==> perm1[i] == ThreadEntry(thread, i)
    {
      var rows: seq<nat> := [2 * tid, 2 * tid + 1, 2 * tid + 8, 2 * tid + 9];
      perm1 := perm1 + seq(4, r requires 0 <= r < 4 => 16 * rows[r] + col + 8 * block);
    }
  }

  /** The inverse permutation, by scattering indices. */
  method MarlinWeightInvPerm(perm: seq<nat>) returns (inv: array<nat>)
    requires |perm| == 1024 && forall x :: 0 <= x < 1024 ==> perm[x] == PermEntry(x)
    ensures fresh(inv) && inv.Length == 1024 && forall v :: 0 <= v < 1024 ==> inv[v] == PermPlace(v)
  {
    hide PermEntry, PermPlace;
    inv := new nat[1024];
    for x := 0 to 1024
      invariant forall y :: 0 <= y < x ==> inv[PermEntry(y)] == y
    {
      if exists y :: 0 <= y < x && PermEntry(y) == PermEntry(x) {
        ghost var y :| 0 <= y < x && PermEntry(y) == PermEntry(x);
        PermInverse(x);
        PermInverse(y);
        assert false;
      }
      inv[perm[x]] := x;
    }
    forall v | 0 <= v < 1024 ensures inv[v] == PermPlace(v) {
      PermInverse(v);
      assert inv[PermEntry(PermPlace(v))] == PermPlace(v);
    }
  }

  // -------------------------------------------------------------------- nibbles

  /** `|` on bit patterns. */
  function Or(a: nat, b: nat): nat {
    if a == 0 && b == 0 then 0 else 2 * Or(a / 2, b / 2) + (if a % 2 == 1 || b % 2 == 1 then 1 else 0)
  }

  function Pow16(i: nat): (p: nat)
    ensures p > 0
  {
    if i == 0 then 1 else 16 * Pow16(i - 1)
  }

  lemma {:induction false} OrZero(a: nat)
    ensures Or(a, 0) == a && Or(0, a) == a
  {
    if a > 0 { OrZero(a / 2); }
  }

  /** Or-ing in what lies above a pattern adds it. */
  lemma {:induction false} OrAbove(a: nat, b: nat, i: nat)
    requires a < Pow16(i)
    ensures Or(a, b * Pow16(i)) == a + b * Pow16(i)
    decreases i
  {
    if i == 0 {
      OrZero(b);
    } else {
      var c := b * Pow16(i - 1);
      assert b * Pow16(i) == 16 * c;
      OrAbove(a / 16, b, i - 1);
      OrSixteen(a, c);
    }
  }

  lemma OrTwo(a: nat, c: nat)
    ensures Or(a, 2 * c) == 2 * Or(a / 2, c) + a % 2
  {
    if a == 0 && c == 0 { assert Or(0, 0) == 0; }
  }

  lemma OrSixteen(a: nat, c: nat)
    ensures Or(a, 16 * c) == 16 * Or(a / 16, c) + a % 16
  {
    OrTwo(a, 8 * c);
    OrTwo(a / 2, 4 * c);
    OrTwo(a / 4, 2 * c);
    OrTwo(a / 8, c);
    assert a / 2 / 2 == a / 4 && a / 4 / 2 == a / 8 && a / 8 / 2 == a / 16;
  }

  /** A 32-bit pattern read as a signed integer. */
  function Signed(w: nat): int { if w < 0x8000_0000 then w else w - 0x1_0000_0000 }

  /** `(s >> 4 * i) & 15` for a signed integer: the shift rounds down. */
  function NibbleOf(s: int, i: nat): nat
    decreases i
  {
    if i == 0 then s % 16 else NibbleOf(s / 16, i - 1)
  }

  /** Little-endian nibbles as a number. */
  function Value(v: seq<nat>): nat {
    if v == [] then 0 else Value(v[..|v| - 1]) + v[|v| - 1] * Pow16(|v| - 1)
  }

  ghost predicate AllNibbles(v: seq<nat>) { forall i :: 0 <= i < |v| ==> v[i] < 16 }

  lemma {:induction false} ValueBound(v: seq<nat>)
    requires AllNibbles(v)
    ensures Value(v) < Pow16(|v|)
  {
    if v != [] {
      ValueBound(v[..|v| - 1]);
      TimesDigit(v[|v| - 1], Pow16(|v| - 1));
    }
  }

  lemma TimesDigit(d: nat, p: nat)
    requires d < 16
    ensures d * p + p <= 16 * p
  {
  }

  lemma {:induction false} ValueSplits(v: seq<nat>)
    requires v != []
    ensures Value(v) == v[0] + 16 * Value(v[1..])
  {
    if |v| == 1 {
      assert v[..0] == [] && v[1..] == [];
    } else {
      var front, rest := v[..|v| - 1], v[1..];
      ValueSplits(front);
      assert rest[..|rest| - 1] == front[1..];
      var p := Pow16(|rest| - 1);
      assert v[|v| - 1] * (16 * p) == 16 * (v[|v| - 1] * p);
    }
  }

  lemma {:induction false} NibbleOfValue(v: seq<nat>, i: nat)
    requires i < |v| && AllNibbles(v)
    ensures NibbleOf(Value(v), i) == v[i]
    decreases i
  {
    ValueSplits(v);
    if i > 0 { NibbleOfValue(v[1..], i - 1); }
  }

  /** Whole multiples of the next power do not show. */
  lemma {:induction false} HigherIrrelevant(x: int, c: int, i: nat)
    ensures NibbleOf(x - Pow16(i + 1) * c, i) == NibbleOf(x, i)
    decreases i
  {
    assert Pow16(i + 1) * c == 16 * (Pow16(i) * c);
    if i > 0 {
      assert (x - 16 * (Pow16(i) * c)) / 16 == x / 16 - Pow16(i) * c;
      HigherIrrelevant(x / 16, c, i - 1);
    } else {
      assert Pow16(0) * c == c;
    }
  }

  lemma {:induction false} Pow16Product(a: nat, b: nat)
    ensures Pow16(a) * Pow16(b) == Pow16(a + b)
  {
    if a > 0 { Pow16Product(a - 1, b); }
  }

  /** Every nibble of a word survives, the top one despite the sign. */
  lemma WordHolds(v: seq<nat>, i: nat)
    requires |v| == 8 && i < 8 && AllNibbles(v)
    ensures NibbleOf(Signed(Value(v)), i) == v[i]
  {
    NibbleOfValue(v, i);
    if Value(v) >= 0x8000_0000 {
      Pow16Product(i + 1, 7 - i);
      assert Pow16(8) == 0x1_0000_0000 by { PowerOfEight(); }
      HigherIrrelevant(Value(v), Pow16(7 - i), i);
    }
  }

  lemma PowerOfEight()
    ensures Pow16(8) == 0x1_0000_0000
  {
    assert Pow16(2) == 256;
    Pow16Product(2, 2);
    Pow16Product(4, 4);
  }

  // ----------------------------------------------------------------------- rows

  /** A row of tiles: 16 rows of the matrix from `16 * kt`, tile after tile. */
  function TileRow(q: seq<seq<nat>>, kt: nat, n: nat): (r: seq<nat>)
    requires 16 * kt + 16 <= |q| && n % 16 == 0 && forall k :: 0 <= k < |q| ==> |q[k]| == n
    ensures |r| == 16 * n
  {
    seq(16 * n, c requires 0 <= c < 16 * n => q[16 * kt + c % 256 / 16][c / 256 * 16 + c % 16])
  }

  /** Where the element at column `n` of the tile row's row `k` stands. */
  function InTile(k: nat, n: nat): nat { n / 16 * 256 + k * 16 + n % 16 }

  lemma InTileIs(k: nat, n: nat, cols: nat)
    requires k < 16 && n < cols && cols % 16 == 0
    ensures var c := InTile(k, n); c < 16 * cols && c % 256 / 16 == k && c / 256 * 16 + c % 16 == n
  {
    var c, j := InTile(k, n), k * 16 + n % 16;
    assert c == n / 16 * 256 + j;
    assert c / 256 == n / 16 && c % 256 == j;
    assert j / 16 == k;
    assert c % 16 == n % 16;
  }

  /** Gathering every 1024 values by a permutation, and back. */
  function InBlockOf(c: nat, x: nat): nat { c / 1024 * 1024 + x }

  function GatherIndex(c: nat): nat { InBlockOf(c, PermEntry(c % 1024)) }

  function PlaceIndex(c: nat): nat { InBlockOf(c, PermPlace(c % 1024)) }

  lemma GatherInverse(c: nat)
    ensures GatherIndex(PlaceIndex(c)) == c
  {
    hide PermEntry, PermPlace;
    PermInverse(c % 1024);
    InBlock(c / 1024, PermPlace(c % 1024));
  }

  lemma InBlock(b: nat, x: nat)
    requires x < 1024
    ensures (b * 1024 + x) / 1024 == b && (b * 1024 + x) % 1024 == x
  {
  }

  /** Blocks stay within a row of whole blocks. */
  lemma IndexStays(c: nat, x: nat, size: nat)
    requires c < size && size % 1024 == 0 && x < 1024
    ensures InBlockOf(c, x) < size
  {
  }

  function Gathered(row: seq<nat>): (r: seq<nat>)
    requires |row| % 1024 == 0
    ensures |r| == |row|
  {
    seq(|row|, c requires 0 <= c < |row| =>
      IndexStays(c, PermEntry(c % 1024), |row|);
      row[GatherIndex(c)])
  }

  function Scattered(row: seq<nat>): (r: seq<nat>)
    requires |row| % 1024 == 0
    ensures |r| == |row|
  {
    seq(|row|, c requires 0 <= c < |row| =>
      IndexStays(c, PermPlace(c % 1024), |row|);
      row[PlaceIndex(c)])
  }

  lemma ScatterUndoesGather(row: seq<nat>)
    requires |row| % 1024 == 0
    ensures Scattered(Gathered(row)) == row
  {
    hide PermEntry, PermPlace;
    forall c | 0 <= c < |row| ensures Scattered(Gathered(row))[c] == row[c] {
      GatherInverse(c);
      IndexStays(c, PermPlace(c % 1024), |row|);
      assert Scattered(Gathered(row))[c] == Gathered(row)[PlaceIndex(c)] == row[GatherIndex(PlaceIndex(c))];
    }
  }

  // ---------------------------------------------------------------- pack, unpack

  /** Word `w` of a row of nibbles. */
  function WordAt(row: seq<nat>, w: nat): nat
    requires 8 * w + 8 <= |row|
  {
    Value(row[8 * w..8 * w + 8])
  }

  /** Or the nibbles of a row into words, one nibble position after the other. */
  method PackRow(row: seq<nat>) returns (words: array<nat>)
    requires |row| % 8 == 0 && AllNibbles(row)
    ensures fresh(words) && words.Length == |row| / 8
    ensures forall w :: 0 <= w < words.Length ==> words[w] == WordAt(row, w)
  {
    hide Value;
    words := new nat[|row| / 8](_ => 0);
    forall w | 0 <= w < words.Length ensures words[w] == PartialWord(row, w, 0) { EmptyWord(row, w); }
    for nibble := 0 to 8
      invariant forall w :: 0 <= w < words.Length ==> words[w] == PartialWord(row, w, nibble)
    {
      OrPosition(row, words, nibble);
    }
  }

  /** Word `w` when its first `n` nibbles are in. */
  function PartialWord(row: seq<nat>, w: nat, n: nat): nat
    requires 8 * w + n <= |row|
  {
    Value(row[8 * w..8 * w + n])
  }

  lemma EmptyWord(row: seq<nat>, w: nat)
    requires 8 * w <= |row|
    ensures PartialWord(row, w, 0) == 0
  {
    assert row[8 * w..8 * w] == [];
  }

  /** `qweight |= nibbles[:, i::8] << 4 * i`. */
  method OrPosition(row: seq<nat>, words: array<nat>, i: nat)
    requires words.Length == |row| / 8 && AllNibbles(row) && i < 8
    requires forall w :: 0 <= w < words.Length ==> words[w] == PartialWord(row, w, i)
    modifies words
    ensures forall w :: 0 <= w < words.Length ==> words[w] == PartialWord(row, w, i + 1)
  {
    hide Value;
    for w := 0 to words.Length
      invariant forall u :: 0 <= u < w ==> words[u] == PartialWord(row, u, i + 1)
      invariant forall u :: w <= u < words.Length ==> words[u] == PartialWord(row, u, i)
    {
      OrNext(row, 8 * w, i);
      words[w] := Or(words[w], row[8 * w + i] * Pow16(i));
    }
  }

  lemma OrNext(row: seq<nat>, from: nat, i: nat)
    requires from + i < |row| && AllNibbles(row)
    ensures Or(Value(row[from..from + i]), row[from + i] * Pow16(i)) == Value(row[from..from + i + 1])
  {
    hide Or, Pow16, Value;
    var v := row[from..from + i];
    assert row[from..from + i + 1] == v + [row[from + i]];
    ValueBound(v);
    OrAbove(Value(v), row[from + i], i);
    ValueNext(v, row[from + i]);
  }

  lemma ValueNext(v: seq<nat>, d: nat)
    ensures Value(v + [d]) == Value(v) + d * Pow16(|v|)
  {
    hide Pow16;
    assert (v + [d])[..|v|] == v;
  }

  /** Take the words of a row apart again. */
  method UnpackRow(words: seq<int>) returns (row: array<nat>)
    ensures fresh(row) && row.Length == 8 * |words|
    ensures forall w, i :: 0 <= w < |words| && 0 <= i < 8 ==> row[8 * w + i] == NibbleOf(words[w], i)
  {
    hide NibbleOf;
    row := new nat[8 * |words|](_ => 0);
    for nibble := 0 to 8
      invariant forall w, i :: 0 <= w < |words| && 0 <= i < nibble ==> row[8 * w + i] == NibbleOf(words[w], i)
    {
      for w := 0 to |words|
        invariant forall u, i :: 0 <= u < |words| && 0 <= i < nibble ==> row[8 * u + i] == NibbleOf(words[u], i)
        invariant forall u :: 0 <= u < w ==> row[8 * u + nibble] == NibbleOf(words[u], nibble)
      {
        row[8 * w + nibble] := NibbleOf(words[w], nibble);
      }
    }
  }

  // --------------------------------------------------------------------- matrix

  ghost predicate IsMatrix<T>(m: seq<seq<T>>, rows: nat, cols: nat) {
    |m| == rows && forall k :: 0 <= k < rows ==> |m[k]| == cols
  }

  ghost predicate Int4(q: seq<seq<nat>>) {
    forall k :: 0 <= k < |q| ==> AllNibbles(q[k])
  }

  lemma WholeBlocks(n: nat)
    requires n % 64 == 0
    ensures n % 16 == 0 && 16 * n % 1024 == 0 && 16 * n % 8 == 0 && 16 * n / 8 == 2 * n && 8 * (2 * n) == 16 * n
  {
    var m := n / 64;
    assert n == 64 * m;
    Multiples(m);
    Octet(2 * n, 0);
    assert 16 * n == 1024 * m && 16 * n == 2 * n * 8 && n == 16 * (4 * m);
  }

  lemma Multiples(m: nat)
    ensures 1024 * m % 1024 == 0 && 16 * (4 * m) % 16 == 0
  {
  }

  /** The stored words of a tile row. */
  function PackedRow(q: seq<seq<nat>>, kt: nat, n: nat): (r: seq<int>)
    requires 16 * kt + 16 <= |q| && n % 64 == 0 && forall k :: 0 <= k < |q| ==> |q[k]| == n
    ensures |r| == 2 * n
  {
    WholeBlocks(n);
    var row := Gathered(TileRow(q, kt, n));
    seq(2 * n, w requires 0 <= w < 2 * n => Signed(WordAt(row, w)))
  }

  /** The row and the column, within a 16 by 16 tile, of a thread's value in nibble `i` of its word: even
      nibbles hold the first four values of the thread, odd ones those eight columns on. */
  function FragmentRow(thread: nat, i: nat): nat
    requires i < 8
  {
    2 * (thread % 4) + [0, 1, 8, 9, 0, 1, 8, 9][[0, 2, 4, 6, 1, 3, 5, 7][i]]
  }

  function FragmentColumn(thread: nat, i: nat): nat
    requires i < 8
  {
    thread / 4 + [0, 0, 0, 0, 8, 8, 8, 8][[0, 2, 4, 6, 1, 3, 5, 7][i]]
  }

  lemma FragmentEntry(thread: nat, tile: nat, i: nat)
    requires thread < 32 && tile < 4 && i < 8
    ensures PermEntry(8 * (4 * thread + tile) + i) == 256 * tile + 16 * FragmentRow(thread, i) + FragmentColumn(thread, i)
    ensures FragmentRow(thread, i) < 16 && FragmentColumn(thread, i) < 16
  {
    hide RawEntry;
    var o := Interleave(i);
    Octet(4 * thread + tile, i);
    assert o == [0, 2, 4, 6, 1, 3, 5, 7][i];
    ThreadEntryIs(thread, tile, o);
    assert ThreadEntry(thread, o) == 16 * FragmentRow(thread, i) + FragmentColumn(thread, i);
  }

  /** Where every weight goes: of each 16 by 64 block, word `4 * thread + tile` holds what that thread
      multiplies of that tile. */
  lemma FragmentLayout(q: seq<seq<nat>>, kt: nat, n: nat, block: nat, thread: nat, tile: nat, i: nat)
    requires 16 * kt + 16 <= |q| && n % 64 == 0 && IsMatrix(q, |q|, n) && Int4(q)
    requires 64 * block + 64 <= n && thread < 32 && tile < 4 && i < 8
    ensures FragmentRow(thread, i) < 16 && FragmentColumn(thread, i) < 16
    ensures NibbleOf(PackedRow(q, kt, n)[128 * block + 4 * thread + tile], i)
         == q[16 * kt + FragmentRow(thread, i)][64 * block + 16 * tile + FragmentColumn(thread, i)]
  {
    hide NibbleOf, PermEntry, Signed, FragmentRow, FragmentColumn, Value;
    WholeBlocks(n);
    var tiled := TileRow(q, kt, n);
    var row, w := Gathered(tiled), 128 * block + 4 * thread + tile;
    TileRowNibbles(q, kt, n);
    GatheredNibbles(tiled);
    WordAtHolds(row, w, i);
    FragmentEntry(thread, tile, i);
    var r, c := FragmentRow(thread, i), FragmentColumn(thread, i);
    BlockIndex(block, 4 * thread + tile, i);
    TileIndex(block, tile, r, c);
  }

  lemma WordAtHolds(row: seq<nat>, w: nat, i: nat)
    requires AllNibbles(row) && 8 * w + 8 <= |row| && i < 8
    ensures NibbleOf(Signed(WordAt(row, w)), i) == row[8 * w + i]
  {
    hide NibbleOf, Signed, Value;
    var v := row[8 * w..8 * w + 8];
    assert v[i] == row[8 * w + i];
    WordHolds(v, i);
  }

  lemma BlockIndex(block: nat, x: nat, i: nat)
    requires x < 128 && i < 8
    ensures var c := 8 * (128 * block + x) + i; c % 1024 == 8 * x + i && c / 1024 == block
  {
  }

  lemma TileIndex(block: nat, tile: nat, r: nat, c: nat)
    requires tile < 4 && r < 16 && c < 16
    ensures var x := 1024 * block + (256 * tile + 16 * r + c);
            x % 256 / 16 == r && x / 256 * 16 + x % 16 == 64 * block + 16 * tile + c
  {
    assert 1024 * block + 256 * tile == 256 * (4 * block + tile);
    assert (256 * (4 * block + tile) + (16 * r + c)) / 256 == 4 * block + tile;
  }

  /** Tile, permute and pack a matrix of 4-bit integers. */
  method PackMarlin(q: seq<seq<nat>>, n: nat) returns (qweight: seq<seq<int>>)
    requires |q| % 16 == 0 && n % 64 == 0 && IsMatrix(q, |q|, n) && Int4(q)
    ensures |qweight| == |q| / 16 && forall kt :: 0 <= kt < |qweight| ==> qweight[kt] == PackedRow(q, kt, n)
  {
    hide Signed, PermEntry, WordAt;
    WholeBlocks(n);
    var perm := MarlinWeightPerm();
    qweight := [];
    for kt := 0 to |q| / 16
      invariant |qweight| == kt && forall t :: 0 <= t < kt ==> qweight[t] == PackedRow(q, t, n)
    {
      var tiled := TileRow(q, kt, n);
      TileRowNibbles(q, kt, n);
      var row := GatherRow(tiled, perm);
      var words := PackRow(row);
      qweight := qweight + [seq(2 * n, w requires 0 <= w < 2 * n && w < words.Length reads words => Signed(words[w]))];
    }
  }

  method GatherRow(row: seq<nat>, perm: seq<nat>) returns (gathered: seq<nat>)
    requires |row| % 1024 == 0 && AllNibbles(row)
    requires |perm| == 1024 && forall x :: 0 <= x < 1024 ==> perm[x] == PermEntry(x)
    ensures gathered == Gathered(row) && AllNibbles(gathered)
  {
    hide PermEntry;
    forall c | 0 <= c < |row| ensures InBlockOf(c, perm[c % 1024]) < |row| {
      IndexStays(c, PermEntry(c % 1024), |row|);
    }
    gathered := seq(|row|, c requires 0 <= c < |row| && InBlockOf(c, perm[c % 1024]) < |row| => row[InBlockOf(c, perm[c % 1024])]);
    assert gathered == Gathered(row);
  }

  lemma TileRowNibbles(q: seq<seq<nat>>, kt: nat, n: nat)
    requires 16 * kt + 16 <= |q| && n % 16 == 0 && IsMatrix(q, |q|, n) && Int4(q)
    ensures AllNibbles(TileRow(q, kt, n))
  {
    var row := TileRow(q, kt, n);
    forall c | 0 <= c < |row| ensures row[c] < 16 {
      RowOfTile(c, n);
      NibbleAt(q, 16 * kt + c % 256 / 16, c / 256 * 16 + c % 16, n);
    }
  }

  lemma RowOfTile(c: nat, n: nat)
    requires n % 16 == 0 && c < 16 * n
    ensures c % 256 / 16 < 16 && c / 256 * 16 + c % 16 < n
  {
    var b, x := c / 256, c % 256;
    assert c == 256 * b + x && n == 16 * (n / 16);
  }

  lemma NibbleAt(q: seq<seq<nat>>, r: nat, c: nat, n: nat)
    requires IsMatrix(q, |q|, n) && Int4(q) && r < |q| && c < n
    ensures q[r][c] < 16
  {
    assert AllNibbles(q[r]);
  }

  /** One row of the matrix out of an unpacked tile row. */
  function UntiledRow(logical: seq<nat>, k: nat, n: nat): seq<nat>
    requires k < 16 && n % 16 == 0 && |logical| == 16 * n
  {
    seq(n, c requires 0 <= c < n =>
      InTileIs(k, c, n);
      logical[InTile(k, c)])
  }

  /** Unpack, permute back and untile. */
  method UnpackMarlin(qweight: seq<seq<int>>, n: nat) returns (q: seq<seq<nat>>)
    requires n % 64 == 0 && forall kt :: 0 <= kt < |qweight| ==> |qweight[kt]| == 2 * n
    ensures |q| == 16 * |qweight|
    ensures forall kt, k :: 0 <= kt < |qweight| && 0 <= k < 16 ==>
              q[16 * kt + k] == UntiledRow(Scattered(UnpackedRow(qweight[kt])), k, n)
  {
    hide NibbleOf, UntiledRow, PermPlace, PermEntry;
    WholeBlocks(n);
    var perm := MarlinWeightPerm();
    var scattered := MarlinWeightInvPerm(perm);
    var inv := scattered[..];
    q := [];
    for kt := 0 to |qweight|
      invariant |q| == 16 * kt
      invariant forall t, k :: 0 <= t < kt && 0 <= k < 16 ==>
                  q[16 * t + k] == UntiledRow(Scattered(UnpackedRow(qweight[t])), k, n)
    {
      var row := UnpackRow(qweight[kt]);
      UnpackedRowIs(qweight[kt], row[..]);
      var logical := ScatterRow(row[..], inv);
      ghost var before := q;
      q := q + seq(16, k requires 0 <= k < 16 => UntiledRow(logical, k, n));
      assert forall i :: 0 <= i < |before| ==> q[i] == before[i];
    }
  }

  method ScatterRow(row: seq<nat>, inv: seq<nat>) returns (scattered: seq<nat>)
    requires |row| % 1024 == 0
    requires |inv| == 1024 && forall v :: 0 <= v < 1024 ==> inv[v] == PermPlace(v)
    ensures scattered == Scattered(row)
  {
    hide PermPlace;
    forall c | 0 <= c < |row| ensures InBlockOf(c, inv[c % 1024]) < |row| {
      IndexStays(c, PermPlace(c % 1024), |row|);
    }
    scattered := seq(|row|, c requires 0 <= c < |row| && InBlockOf(c, inv[c % 1024]) < |row| => row[InBlockOf(c, inv[c % 1024])]);
    assert scattered == Scattered(row);
  }

  function UnpackedRow(words: seq<int>): (r: seq<nat>)
    ensures |r| == 8 * |words|
  {
    seq(8 * |words|, c requires 0 <= c < 8 * |words| => NibbleOf(words[c / 8], c % 8))
  }

  lemma UnpackedRowIs(words: seq<int>, row: seq<nat>)
    requires |row| == 8 * |words|
    requires forall w, i :: 0 <= w < |words| && 0 <= i < 8 ==> row[8 * w + i] == NibbleOf(words[w], i)
    ensures row == UnpackedRow(words)
  {
    hide NibbleOf;
    forall c | 0 <= c < |row| ensures row[c] == UnpackedRow(words)[c] {
      assert c == 8 * (c / 8) + c % 8;
    }
  }

  lemma RowRoundTrip(q: seq<seq<nat>>, kt: nat, n: nat)
    requires 16 * kt + 16 <= |q| && n % 64 == 0 && IsMatrix(q, |q|, n) && Int4(q)
    ensures n % 16 == 0 && 16 * n % 1024 == 0
    ensures Scattered(UnpackedRow(PackedRow(q, kt, n))) == TileRow(q, kt, n)
  {
    hide Signed, NibbleOf, PermEntry, PermPlace, Value, TileRow, Gathered, Scattered;
    WholeBlocks(n);
    var tiled := TileRow(q, kt, n);
    var row := Gathered(tiled);
    TileRowNibbles(q, kt, n);
    GatheredNibbles(tiled);
    var back := UnpackedRow(PackedRow(q, kt, n));
    forall c | 0 <= c < |row| ensures back[c] == row[c] {
      var w := c / 8;
      assert row[8 * w..8 * w + 8][c % 8] == row[c];
      WordHolds(row[8 * w..8 * w + 8], c % 8);
    }
    assert back == row;
    ScatterUndoesGather(tiled);
  }

  lemma GatheredNibbles(row: seq<nat>)
    requires |row| % 1024 == 0 && AllNibbles(row)
    ensures AllNibbles(Gathered(row))
  {
    hide PermEntry;
    forall c | 0 <= c < |row| ensures Gathered(row)[c] < 16 {
      IndexStays(c, PermEntry(c % 1024), |row|);
    }
  }

  /** Unpacking undoes packing, for every matrix of 4-bit integers with valid dimensions. */
  lemma PackRoundTrip(q: seq<seq<nat>>, n: nat, kt: nat, k: nat)
    requires n % 64 == 0 && IsMatrix(q, |q|, n) && Int4(q)
    requires k < 16 && 16 * kt + 16 <= |q|
    ensures n % 16 == 0 && 16 * n % 1024 == 0
    ensures UntiledRow(Scattered(UnpackedRow(PackedRow(q, kt, n))), k, n) == q[16 * kt + k]
  {
    hide PackedRow, UnpackedRow, Scattered, InTile;
    WholeBlocks(n);
    RowRoundTrip(q, kt, n);
    forall c | 0 <= c < n ensures UntiledRow(TileRow(q, kt, n), k, n)[c] == q[16 * kt + k][c] {
      InTileIs(k, c, n);
    }
  }

  // -------------------------------------------------------------------- scales

  /** Rounding to the nearest integer, halves to the even one. */
  function Round(x: real): int {
    var f := x.Floor;
    var rest := x - f as real;
    if rest < 0.5 then f else if rest > 0.5 then f + 1 else if f % 2 == 0 then f else f + 1
  }

  /** The nearest integer, and on a tie the even one. */
  lemma RoundClose(x: real)
    ensures -0.5 <= Round(x) as real - x <= 0.5
    ensures Round(x) as real - x == 0.5 || Round(x) as real - x == -0.5 ==> Round(x) % 2 == 0
  {
  }

  /** `clamp(round(w / s) + 8, 0, 15)`. */
  function Quantize(w: real, s: real): (q: nat)
    requires s != 0.0
    ensures q < 16
  {
    var q := Round(w / s) + 8;
    if q < 0 then 0 else if q > 15 then 15 else q
  }

  function Dequantize(q: nat, s: real): real { (q as real - 8.0) * s }

  function Abs(x: real): real { if x < 0.0 then -x else x }

  /** With a scale of an eighth of the largest magnitude, a weight comes back within one scale
      step; and within half a step exactly when it does not exceed seven and a half, where the
      top of the range clamps. */
  lemma QuantizationError(w: real, s: real)
    requires s > 0.0 && Abs(w) <= 8.0 * s
    ensures Abs(Dequantize(Quantize(w, s), s) - w) <= s
    ensures Abs(Dequantize(Quantize(w, s), s) - w) <= 0.5 * s <==> w <= 7.5 * s
  {
    var x := w / s;
    assert x * s == w by { Divided(w, s); }
    ErrorOf(x, w, s, Quantize(w, s));
  }

  /** With any positive scale, a weight comes back within one step exactly when it is no more than
      nine steps below zero or eight above. */
  lemma StepErrorExact(w: real, s: real)
    requires s > 0.0
    ensures Abs(Dequantize(Quantize(w, s), s) - w) <= s <==> -9.0 * s <= w <= 8.0 * s
  {
    var x, q := w / s, Quantize(w, s);
    assert x * s == w by { Divided(w, s); }
    hide Quantize;
    ClampedWithin(x, q);
    var e := q as real - 8.0 - x;
    assert Dequantize(q, s) - w == e * s by { Factor(q as real - 8.0, x, s); }
    NotBelow(-1.0, e, s, e * s);
    NotAbove(1.0, e, s, e * s);
    NotBelow(-9.0, x, s, w);
    NotAbove(8.0, x, s, w);
  }

  lemma ClampedWithin(x: real, q: nat)
    requires q == (if Round(x) + 8 < 0 then 0 else if Round(x) + 8 > 15 then 15 else Round(x) + 8)
    ensures -1.0 <= q as real - 8.0 - x <= 1.0 <==> -9.0 <= x <= 8.0
  {
    hide Round;
    RoundClose(x);
  }

  lemma ErrorOf(x: real, w: real, s: real, q: nat)
    requires s > 0.0 && x * s == w && Abs(w) <= 8.0 * s
    requires q == (if Round(x) + 8 < 0 then 0 else if Round(x) + 8 > 15 then 15 else Round(x) + 8)
    ensures Abs(Dequantize(q, s) - w) <= s
    ensures Abs(Dequantize(q, s) - w) <= 0.5 * s <==> w <= 7.5 * s
  {
    hide Round;
    RatioBounds(x, w, s);
    ClampedError(x, q);
    var e := q as real - 8.0 - x;
    assert Dequantize(q, s) - w == e * s by { Factor(q as real - 8.0, x, s); }
    ErrorBounds(e, e * s, s);
  }

  lemma RatioBounds(x: real, w: real, s: real)
    requires s > 0.0 && x * s == w && Abs(w) <= 8.0 * s
    ensures -8.0 <= x <= 8.0
    ensures x <= 7.5 <==> w <= 7.5 * s
  {
    NotBelow(-8.0, x, s, w);
    NotAbove(8.0, x, s, w);
    NotAbove(7.5, x, s, w);
  }

  lemma ErrorBounds(e: real, es: real, s: real)
    requires s > 0.0 && es == e * s && -1.0 <= e <= 0.5
    ensures Abs(es) <= s
    ensures Abs(es) <= 0.5 * s <==> e >= -0.5
  {
    NotBelow(-1.0, e, s, es);
    NotBelow(-0.5, e, s, es);
    NotAbove(0.5, e, s, es);
  }

  lemma NotBelow(c: real, e: real, s: real, es: real)
    requires s > 0.0 && es == e * s
    ensures c <= e <==> c * s <= es
  {
    TimesOrder(c, e, s);
  }

  lemma NotAbove(c: real, e: real, s: real, es: real)
    requires s > 0.0 && es == e * s
    ensures e <= c <==> es <= c * s
  {
    TimesOrder(e, c, s);
  }

  lemma ClampedError(x: real, q: nat)
    requires -8.0 <= x <= 8.0
    requires q == (if Round(x) + 8 < 0 then 0 else if Round(x) + 8 > 15 then 15 else Round(x) + 8)
    ensures -1.0 <= q as real - 8.0 - x <= 0.5
    ensures q as real - 8.0 - x >= -0.5 <==> x <= 7.5
  {
    RoundClose(x);
  }

  lemma Divided(w: real, s: real)
    requires s > 0.0
    ensures w / s * s == w
  {
  }

  /** A positive factor keeps the order. */
  lemma TimesOrder(a: real, b: real, s: real)
    requires s > 0.0
    ensures a <= b <==> a * s <= b * s
  {
    Factor(b, a, s);
    SignOfProduct(b - a, s);
  }

  lemma SignOfProduct(d: real, s: real)
    requires s > 0.0
    ensures d >= 0.0 <==> d * s >= 0.0
  {
  }

  lemma Factor(a: real, b: real, s: real)
    ensures a * s - b * s == (a - b) * s
  {
  }

  const SMALLEST := 0.00000001

  /** `compute_w4a16_scales` for one column of one group: an eighth of its largest magnitude. */
  method ColumnScale(column: seq<real>) returns (s: real)
    requires column != []
    ensures s > 0.0 && forall k :: 0 <= k < |column| ==> Abs(column[k]) <= 8.0 * s
    ensures 8.0 * s >= SMALLEST
    ensures 8.0 * s == SMALLEST || exists k :: 0 <= k < |column| && Abs(column[k]) == 8.0 * s
  {
    var amax := Abs(column[0]);
    for k := 1 to |column|
      invariant forall j :: 0 <= j < k ==> Abs(column[j]) <= amax
      invariant exists j :: 0 <= j < |column| && Abs(column[j]) == amax
    {
      if Abs(column[k]) > amax {
        amax := Abs(column[k]);
      }
    }
    s := (if amax < SMALLEST then SMALLEST else amax) / 8.0;
  }

  // --------------------------------------------------------------- round trip

  /** `_require_pack_shapes`. */
  predicate ValidShapes(k: nat, n: nat, groupSize: int) {
    k > 0 && n > 0 && k % 16 == 0 && n % 64 == 0 && groupSize > 0 && groupSize % 16 == 0 && k % groupSize == 0
  }

  function ScaleOf(scales: seq<seq<real>>, g: Positive, r: nat, c: nat): real {
    if r / g < |scales| && c < |scales[r / g]| then scales[r / g][c] else 0.0
  }

  /** A usable scale for a weight: positive, and an eighth of no less than its magnitude. */
  predicate Covers(s: real, w: real) { s > 0.0 && Abs(w) <= 8.0 * s }

  ghost predicate ScalesCover(weight: seq<seq<real>>, n: nat, g: Positive, scales: seq<seq<real>>, rows: nat)
    requires rows <= |weight| && IsMatrix(weight, |weight|, n)
  {
    forall r, c :: 0 <= r < rows && 0 <= c < n ==> Covers(ScaleOf(scales, g, r, c), weight[r][c])
  }

  /** The scale of column `c` over the group from row `start` on: an eighth of the largest magnitude,
      but for the least one allowed. */
  ghost predicate IsScale(s: real, weight: seq<seq<real>>, start: nat, g: Positive, c: nat) {
    && start + g <= |weight| && (forall r :: start <= r < start + g ==> c < |weight[r]|)
    && 8.0 * s >= SMALLEST && (forall r :: start <= r < start + g ==> Covers(s, weight[r][c]))
    && (8.0 * s == SMALLEST || exists r :: start <= r < start + g && Abs(weight[r][c]) == 8.0 * s)
  }

  method ComputeScales(weight: seq<seq<real>>, n: nat, g: Positive) returns (scales: seq<seq<real>>)
    requires IsMatrix(weight, |weight|, n) && |weight| % g == 0
    ensures IsMatrix(scales, |weight| / g, n) && ScalesCover(weight, n, g, scales, |weight|)
    ensures forall group, c :: 0 <= group < |scales| && 0 <= c < n ==> IsScale(scales[group][c], weight, Span(group, g), g, c)
  {
    hide Covers, ScaleOf, IsScale;
    scales := [];
    var start := 0;
    DivModJoin(|weight|, g);
    for group := 0 to |weight| / g
      invariant start == Span(group, g) <= |weight| && IsMatrix(scales, group, n)
      invariant ScalesCover(weight, n, g, scales, start)
      invariant forall k, c :: 0 <= k < group && 0 <= c < n ==> IsScale(scales[k][c], weight, Span(k, g), g, c)
    {
      SpanMono(group + 1, |weight| / g, g);
      var row := GroupScales(weight, n, g, start);
      GroupCovered(weight, n, g, scales, group, row);
      scales := scales + [row];
      start := start + g;
    }
  }

  /** One row of scales: a column at a time. */
  method GroupScales(weight: seq<seq<real>>, n: nat, g: Positive, start: nat) returns (row: seq<real>)
    requires IsMatrix(weight, |weight|, n) && start + g <= |weight|
    ensures |row| == n && forall c :: 0 <= c < n ==> IsScale(row[c], weight, start, g, c)
    ensures forall r, c :: start <= r < start + g && 0 <= c < n ==> Covers(row[c], weight[r][c])
  {
    hide IsScale;
    row := [];
    for c := 0 to n
      invariant |row| == c && forall d :: 0 <= d < c ==> IsScale(row[d], weight, start, g, d)
    {
      var column := seq(g, i requires 0 <= i < g => weight[start + i][c]);
      var s := ColumnScale(column);
      ColumnScaleIs(s, weight, n, start, g, c, column);
      row := row + [s];
    }
    forall r, c | start <= r < start + g && 0 <= c < n ensures Covers(row[c], weight[r][c]) {
      ScaleCovers(row[c], weight, start, g, c, r);
    }
  }

  lemma ScaleCovers(s: real, weight: seq<seq<real>>, start: nat, g: Positive, c: nat, r: nat)
    requires IsScale(s, weight, start, g, c) && start <= r < start + g
    ensures Covers(s, weight[r][c])
  {
  }

  lemma ColumnScaleIs(s: real, weight: seq<seq<real>>, n: nat, start: nat, g: Positive, c: nat, column: seq<real>)
    requires IsMatrix(weight, |weight|, n) && start + g <= |weight| && c < n
    requires |column| == g && forall i :: 0 <= i < g ==> column[i] == weight[start + i][c]
    requires 8.0 * s >= SMALLEST && forall k :: 0 <= k < |column| ==> Abs(column[k]) <= 8.0 * s
    requires 8.0 * s == SMALLEST || exists k :: 0 <= k < |column| && Abs(column[k]) == 8.0 * s
    ensures IsScale(s, weight, start, g, c)
  {
    hide Abs;
    forall r | start <= r < start + g ensures Covers(s, weight[r][c]) { assert column[r - start] == weight[r][c]; }
    if 8.0 * s != SMALLEST {
      var k :| 0 <= k < |column| && Abs(column[k]) == 8.0 * s;
      assert column[k] == weight[start + k][c];
    }
  }

  lemma GroupCovered(weight: seq<seq<real>>, n: nat, g: Positive, scales: seq<seq<real>>, group: nat, row: seq<real>)
    requires IsMatrix(weight, |weight|, n) && IsMatrix(scales, group, n) && Span(group, g) + g <= |weight|
    requires ScalesCover(weight, n, g, scales, Span(group, g)) && |row| == n
    requires forall r, c :: Span(group, g) <= r < Span(group, g) + g && 0 <= c < n ==> Covers(row[c], weight[r][c])
    ensures ScalesCover(weight, n, g, scales + [row], Span(group, g) + g)
  {
    hide Covers, ScaleOf;
    forall r, c | 0 <= r < Span(group, g) + g && 0 <= c < n
      ensures Covers(ScaleOf(scales + [row], g, r, c), weight[r][c])
    {
      ScaleOfNext(scales, n, g, group, row, r, c);
    }
  }

  lemma ScaleOfNext(scales: seq<seq<real>>, n: nat, g: Positive, group: nat, row: seq<real>, r: nat, c: nat)
    requires IsMatrix(scales, group, n) && |row| == n && r < Span(group, g) + g && c < n
    ensures ScaleOf(scales + [row], g, r, c) == if r < Span(group, g) then ScaleOf(scales, g, r, c) else row[c]
  {
    if r < Span(group, g) {
      DivModJoin(r, g);
      if r / g >= group { SpanMono(group, r / g, g); }
    } else {
      QuotientIs(r, g, group);
    }
  }

  function QuantizedAt(w: real, s: real): nat { if s != 0.0 then Quantize(w, s) else 0 }

  method QuantizeMatrix(weight: seq<seq<real>>, n: nat, g: Positive, scales: seq<seq<real>>) returns (q: seq<seq<nat>>)
    requires IsMatrix(weight, |weight|, n)
    ensures IsMatrix(q, |weight|, n) && Int4(q)
    ensures forall r, c :: 0 <= r < |weight| && 0 <= c < n ==> q[r][c] == QuantizedAt(weight[r][c], ScaleOf(scales, g, r, c))
  {
    hide Quantize, ScaleOf;
    q := [];
    for r := 0 to |weight|
      invariant IsMatrix(q, r, n) && Int4(q)
      invariant forall i, c :: 0 <= i < r && 0 <= c < n ==> q[i][c] == QuantizedAt(weight[i][c], ScaleOf(scales, g, i, c))
    {
      q := q + [seq(n, c requires 0 <= c < n => QuantizedAt(weight[r][c], ScaleOf(scales, g, r, c)))];
    }
  }

  method DequantizeMatrix(q: seq<seq<nat>>, n: nat, g: Positive, scales: seq<seq<real>>) returns (m: seq<seq<real>>)
    requires IsMatrix(q, |q|, n)
    ensures IsMatrix(m, |q|, n)
    ensures forall r, c :: 0 <= r < |q| && 0 <= c < n ==> m[r][c] == Dequantize(q[r][c], ScaleOf(scales, g, r, c))
  {
    hide Dequantize, ScaleOf;
    m := [];
    for r := 0 to |q|
      invariant IsMatrix(m, r, n)
      invariant forall i, c :: 0 <= i < r && 0 <= c < n ==> m[i][c] == Dequantize(q[i][c], ScaleOf(scales, g, i, c))
    {
      m := m + [seq(n, c requires 0 <= c < n => Dequantize(q[r][c], ScaleOf(scales, g, r, c)))];
    }
  }

  /** Pack and unpack: the same 4-bit integers. */
  method ThroughMarlin(q: seq<seq<nat>>, n: nat) returns (back: seq<seq<nat>>)
    requires |q| % 16 == 0 && n % 64 == 0 && IsMatrix(q, |q|, n) && Int4(q)
    ensures back == q
  {
    hide PackedRow, UntiledRow, UnpackedRow, Scattered;
    WholeBlocks(n);
    var qweight := PackMarlin(q, n);
    back := UnpackMarlin(qweight, n);
    forall r | 0 <= r < |q| ensures back[r] == q[r] {
      assert r == 16 * (r / 16) + r % 16;
      PackRoundTrip(q, n, r / 16, r % 16);
    }
  }

  /** `_broadcast_scales`: one row of scales serves every group. */
  predicate Broadcasts(supplied: seq<seq<real>>, groups: nat, n: nat) {
    (|supplied| == 1 || |supplied| == groups) && forall i :: 0 <= i < |supplied| ==> |supplied[i]| == n
  }

  function Broadcast(supplied: seq<seq<real>>, groups: nat): seq<seq<real>> {
    if |supplied| == 1 && groups != 1 then seq(groups, _ => supplied[0]) else supplied
  }

  ghost predicate NoZeroScale(supplied: seq<seq<real>>) {
    forall i, c :: 0 <= i < |supplied| && 0 <= c < |supplied[i]| ==> supplied[i][c] != 0.0
  }

  /** Quantize, pack, unpack, dequantize: every weight comes back as its own 4-bit value times its
      own scale, and, with the default scales, at most one scale step off. */
  method FakeQuant(weight: seq<seq<real>>, n: nat, groupSize: int, supplied: Option<seq<seq<real>>>)
    returns (back: Option<seq<seq<real>>>, scales: seq<seq<real>>)
    requires IsMatrix(weight, |weight|, n) && (supplied.Some? ==> NoZeroScale(supplied.value))
    ensures back.Some? <==>
              ValidShapes(|weight|, n, groupSize) && (supplied.Some? ==> Broadcasts(supplied.value, |weight| / groupSize, n))
    ensures back.Some? ==>
              && IsMatrix(back.value, |weight|, n)
              && (supplied.Some? ==> scales == Broadcast(supplied.value, |weight| / groupSize))
              && forall r, c :: 0 <= r < |weight| && 0 <= c < n ==>
                   ComesBack(back.value[r][c], weight[r][c], ScaleOf(scales, groupSize, r, c))
    ensures back.Some? && supplied.None? ==>
              && ScalesCover(weight, n, groupSize, scales, |weight|)
              && forall r, c :: 0 <= r < |weight| && 0 <= c < n ==>
                   WithinStep(back.value[r][c], weight[r][c], ScaleOf(scales, groupSize, r, c))
  {
    hide QuantizedAt, Dequantize, ScaleOf, WithinStep, Covers, ComesBack, Broadcast;
    scales := [];
    if !ValidShapes(|weight|, n, groupSize) {
      return None, scales;
    }
    var g: Positive := groupSize;
    if supplied.None? {
      scales := ComputeScales(weight, n, g);
    } else {
      if !Broadcasts(supplied.value, |weight| / g, n) {
        return None, scales;
      }
      scales := Broadcast(supplied.value, |weight| / g);
    }
    var q := QuantizeMatrix(weight, n, g, scales);
    var q1 := ThroughMarlin(q, n);
    var m := DequantizeMatrix(q1, n, g, scales);
    forall r, c | 0 <= r < |weight| && 0 <= c < n
      ensures ComesBack(m[r][c], weight[r][c], ScaleOf(scales, g, r, c))
      ensures supplied.None? ==> WithinStep(m[r][c], weight[r][c], ScaleOf(scales, g, r, c))
    {
      if supplied.None? {
        StepError(weight[r][c], ScaleOf(scales, g, r, c));
        WithinComesBack(m[r][c], weight[r][c], ScaleOf(scales, g, r, c));
      } else {
        BroadcastScale(supplied.value, |weight|, n, g, r, c);
        NonZeroComesBack(weight[r][c], ScaleOf(scales, g, r, c));
      }
    }
    back := Some(m);
  }

  /** `v` is what `w` becomes with scale `s`. */
  predicate ComesBack(v: real, w: real, s: real) {
    s != 0.0 && v == Dequantize(Quantize(w, s), s)
  }

  lemma WithinComesBack(v: real, w: real, s: real)
    requires WithinStep(v, w, s)
    ensures ComesBack(v, w, s)
  {
  }

  lemma NonZeroComesBack(w: real, s: real)
    requires s != 0.0
    ensures ComesBack(Dequantize(QuantizedAt(w, s), s), w, s)
  {
  }

  lemma BroadcastScale(supplied: seq<seq<real>>, k: nat, n: nat, g: Positive, r: nat, c: nat)
    requires Broadcasts(supplied, k / g, n) && NoZeroScale(supplied) && k % g == 0 && r < k && c < n
    ensures ScaleOf(Broadcast(supplied, k / g), g, r, c) != 0.0
  {
    DivModJoin(k, g);
    DivModJoin(r, g);
    if r / g >= k / g { SpanMono(k / g, r / g, g); }
    var scales := Broadcast(supplied, k / g);
    assert scales[r / g] == supplied[if |supplied| == 1 then 0 else r / g];
  }

  /** `v` is what `w` becomes with scale `s`, and no more than a step away. */
  predicate WithinStep(v: real, w: real, s: real) {
    s > 0.0 && v == Dequantize(Quantize(w, s), s) && Abs(v - w) <= s
  }

  lemma StepError(w: real, s: real)
    requires Covers(s, w)
    ensures WithinStep(Dequantize(QuantizedAt(w, s), s), w, s)
  {
    hide Quantize, Dequantize, Abs;
    QuantizationError(w, s);
  }
}

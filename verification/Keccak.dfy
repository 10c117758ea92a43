/** The optimised Keccak of keccak.c: lanes renamed instead of moved, six of them complemented. */
module Keccak {
  import opened Words
  import opened Wrappers
  import opened Fips202

  /** Something for each lane; axy belongs to lane x, y. */
  datatype Grid<T> = Grid(a00: T, a01: T, a02: T, a03: T, a04: T,
                              a10: T, a11: T, a12: T, a13: T, a14: T,
                              a20: T, a21: T, a22: T, a23: T, a24: T,
                              a30: T, a31: T, a32: T, a33: T, a34: T,
                              a40: T, a41: T, a42: T, a43: T, a44: T)

  function ToLanes(g: Grid<Word>): Lanes {
    [g.a00, g.a10, g.a20, g.a30, g.a40,
     g.a01, g.a11, g.a21, g.a31, g.a41,
     g.a02, g.a12, g.a22, g.a32, g.a42,
     g.a03, g.a13, g.a23, g.a33, g.a43,
     g.a04, g.a14, g.a24, g.a34, g.a44]
  }

  function ToGrid(a: Lanes): Grid<Word> {
    Grid(a[At(0, 0)], a[At(0, 1)], a[At(0, 2)], a[At(0, 3)], a[At(0, 4)],
         a[At(1, 0)], a[At(1, 1)], a[At(1, 2)], a[At(1, 3)], a[At(1, 4)],
         a[At(2, 0)], a[At(2, 1)], a[At(2, 2)], a[At(2, 3)], a[At(2, 4)],
         a[At(3, 0)], a[At(3, 1)], a[At(3, 2)], a[At(3, 3)], a[At(3, 4)],
         a[At(4, 0)], a[At(4, 1)], a[At(4, 2)], a[At(4, 3)], a[At(4, 4)])
  }

  // ---------------------------------------------------------------- names of lanes

  /** The lanes that the macros see as b00, b01, .., b10, .. when they run on the names of table `r`. */
  function View<T>(a: Grid<T>, r: nat): Grid<T> {
    match r
    case 0 => Grid(a.a00, a.a01, a.a02, a.a03, a.a04, a.a10, a.a11, a.a12, a.a13, a.a14, a.a20, a.a21,
                     a.a22, a.a23, a.a24, a.a30, a.a31, a.a32, a.a33, a.a34, a.a40, a.a41, a.a42, a.a43,
                     a.a44)
    case 1 => Grid(a.a00, a.a30, a.a10, a.a40, a.a20, a.a11, a.a41, a.a21, a.a01, a.a31, a.a22, a.a02,
                     a.a32, a.a12, a.a42, a.a33, a.a13, a.a43, a.a23, a.a03, a.a44, a.a24, a.a04, a.a34,
                     a.a14)
    case 2 => Grid(a.a00, a.a33, a.a11, a.a44, a.a22, a.a41, a.a24, a.a02, a.a30, a.a13, a.a32, a.a10,
                     a.a43, a.a21, a.a04, a.a23, a.a01, a.a34, a.a12, a.a40, a.a14, a.a42, a.a20, a.a03,
                     a.a31)
    case 3 => Grid(a.a00, a.a23, a.a41, a.a14, a.a32, a.a24, a.a42, a.a10, a.a33, a.a01, a.a43, a.a11,
                     a.a34, a.a02, a.a20, a.a12, a.a30, a.a03, a.a21, a.a44, a.a31, a.a04, a.a22, a.a40,
                     a.a13)
    case 4 => Grid(a.a00, a.a12, a.a24, a.a31, a.a43, a.a42, a.a04, a.a11, a.a23, a.a30, a.a34, a.a41,
                     a.a03, a.a10, a.a22, a.a21, a.a33, a.a40, a.a02, a.a14, a.a13, a.a20, a.a32, a.a44,
                     a.a01)
    case 5 => Grid(a.a00, a.a21, a.a42, a.a13, a.a34, a.a04, a.a20, a.a41, a.a12, a.a33, a.a03, a.a24,
                     a.a40, a.a11, a.a32, a.a02, a.a23, a.a44, a.a10, a.a31, a.a01, a.a22, a.a43, a.a14,
                     a.a30)
    case 6 => Grid(a.a00, a.a02, a.a04, a.a01, a.a03, a.a20, a.a22, a.a24, a.a21, a.a23, a.a40, a.a42,
                     a.a44, a.a41, a.a43, a.a10, a.a12, a.a14, a.a11, a.a13, a.a30, a.a32, a.a34, a.a31,
                     a.a33)
    case 7 => Grid(a.a00, a.a10, a.a20, a.a30, a.a40, a.a22, a.a32, a.a42, a.a02, a.a12, a.a44, a.a04,
                     a.a14, a.a24, a.a34, a.a11, a.a21, a.a31, a.a41, a.a01, a.a33, a.a43, a.a03, a.a13,
                     a.a23)
    case _ => Grid(a.a00, a.a11, a.a22, a.a33, a.a44, a.a32, a.a43, a.a04, a.a10, a.a21, a.a14, a.a20,
                     a.a31, a.a42, a.a03, a.a41, a.a02, a.a13, a.a24, a.a30, a.a23, a.a34, a.a40, a.a01,
                     a.a12)
  }

  /** The lanes after the macros have set all of b00, b01, .. to `t`. */
  function Store<T>(t: Grid<T>, r: nat): Grid<T> {
    match r
    case 0 => Grid(a00 := t.a00, a01 := t.a01, a02 := t.a02, a03 := t.a03, a04 := t.a04,
                     a10 := t.a10, a11 := t.a11, a12 := t.a12, a13 := t.a13, a14 := t.a14,
                     a20 := t.a20, a21 := t.a21, a22 := t.a22, a23 := t.a23, a24 := t.a24,
                     a30 := t.a30, a31 := t.a31, a32 := t.a32, a33 := t.a33, a34 := t.a34,
                     a40 := t.a40, a41 := t.a41, a42 := t.a42, a43 := t.a43, a44 := t.a44)
    case 1 => Grid(a00 := t.a00, a30 := t.a01, a10 := t.a02, a40 := t.a03, a20 := t.a04,
                     a11 := t.a10, a41 := t.a11, a21 := t.a12, a01 := t.a13, a31 := t.a14,
                     a22 := t.a20, a02 := t.a21, a32 := t.a22, a12 := t.a23, a42 := t.a24,
                     a33 := t.a30, a13 := t.a31, a43 := t.a32, a23 := t.a33, a03 := t.a34,
                     a44 := t.a40, a24 := t.a41, a04 := t.a42, a34 := t.a43, a14 := t.a44)
    case 2 => Grid(a00 := t.a00, a33 := t.a01, a11 := t.a02, a44 := t.a03, a22 := t.a04,
                     a41 := t.a10, a24 := t.a11, a02 := t.a12, a30 := t.a13, a13 := t.a14,
                     a32 := t.a20, a10 := t.a21, a43 := t.a22, a21 := t.a23, a04 := t.a24,
                     a23 := t.a30, a01 := t.a31, a34 := t.a32, a12 := t.a33, a40 := t.a34,
                     a14 := t.a40, a42 := t.a41, a20 := t.a42, a03 := t.a43, a31 := t.a44)
    case 3 => Grid(a00 := t.a00, a23 := t.a01, a41 := t.a02, a14 := t.a03, a32 := t.a04,
                     a24 := t.a10, a42 := t.a11, a10 := t.a12, a33 := t.a13, a01 := t.a14,
                     a43 := t.a20, a11 := t.a21, a34 := t.a22, a02 := t.a23, a20 := t.a24,
                     a12 := t.a30, a30 := t.a31, a03 := t.a32, a21 := t.a33, a44 := t.a34,
                     a31 := t.a40, a04 := t.a41, a22 := t.a42, a40 := t.a43, a13 := t.a44)
    case 4 => Grid(a00 := t.a00, a12 := t.a01, a24 := t.a02, a31 := t.a03, a43 := t.a04,
                     a42 := t.a10, a04 := t.a11, a11 := t.a12, a23 := t.a13, a30 := t.a14,
                     a34 := t.a20, a41 := t.a21, a03 := t.a22, a10 := t.a23, a22 := t.a24,
                     a21 := t.a30, a33 := t.a31, a40 := t.a32, a02 := t.a33, a14 := t.a34,
                     a13 := t.a40, a20 := t.a41, a32 := t.a42, a44 := t.a43, a01 := t.a44)
    case 5 => Grid(a00 := t.a00, a21 := t.a01, a42 := t.a02, a13 := t.a03, a34 := t.a04,
                     a04 := t.a10, a20 := t.a11, a41 := t.a12, a12 := t.a13, a33 := t.a14,
                     a03 := t.a20, a24 := t.a21, a40 := t.a22, a11 := t.a23, a32 := t.a24,
                     a02 := t.a30, a23 := t.a31, a44 := t.a32, a10 := t.a33, a31 := t.a34,
                     a01 := t.a40, a22 := t.a41, a43 := t.a42, a14 := t.a43, a30 := t.a44)
    case 6 => Grid(a00 := t.a00, a02 := t.a01, a04 := t.a02, a01 := t.a03, a03 := t.a04,
                     a20 := t.a10, a22 := t.a11, a24 := t.a12, a21 := t.a13, a23 := t.a14,
                     a40 := t.a20, a42 := t.a21, a44 := t.a22, a41 := t.a23, a43 := t.a24,
                     a10 := t.a30, a12 := t.a31, a14 := t.a32, a11 := t.a33, a13 := t.a34,
                     a30 := t.a40, a32 := t.a41, a34 := t.a42, a31 := t.a43, a33 := t.a44)
    case 7 => Grid(a00 := t.a00, a10 := t.a01, a20 := t.a02, a30 := t.a03, a40 := t.a04,
                     a22 := t.a10, a32 := t.a11, a42 := t.a12, a02 := t.a13, a12 := t.a14,
                     a44 := t.a20, a04 := t.a21, a14 := t.a22, a24 := t.a23, a34 := t.a24,
                     a11 := t.a30, a21 := t.a31, a31 := t.a32, a41 := t.a33, a01 := t.a34,
                     a33 := t.a40, a43 := t.a41, a03 := t.a42, a13 := t.a43, a23 := t.a44)
    case _ => Grid(a00 := t.a00, a11 := t.a01, a22 := t.a02, a33 := t.a03, a44 := t.a04,
                     a32 := t.a10, a43 := t.a11, a04 := t.a12, a10 := t.a13, a21 := t.a14,
                     a14 := t.a20, a20 := t.a21, a31 := t.a22, a42 := t.a23, a03 := t.a24,
                     a41 := t.a30, a02 := t.a31, a13 := t.a32, a24 := t.a33, a30 := t.a34,
                     a23 := t.a40, a34 := t.a41, a40 := t.a42, a01 := t.a43, a12 := t.a44)
  }

  /** The step mapping pi on names. */
  function PiNames<T>(t: Grid<T>): Grid<T> {
    Grid(t.a00, t.a30, t.a10, t.a40, t.a20,
         t.a11, t.a41, t.a21, t.a01, t.a31,
         t.a22, t.a02, t.a32, t.a12, t.a42,
         t.a33, t.a13, t.a43, t.a23, t.a03,
         t.a44, t.a24, t.a04, t.a34, t.a14)
  }

  lemma StoreView<T>(t: Grid<T>, r: nat)
    requires r <= 8
    ensures View(Store(t, r), r) == t
  {
  }

  /** Each table follows from the one before it by pi. */
  lemma TablesFollowPi<T>(t: Grid<T>, r: nat)
    requires r < 8
    ensures View(Store(t, r), r + 1) == PiNames(t)
  {
  }

  lemma PiIsPi(a: Lanes)
    ensures ToGrid(Pi(a)) == PiNames(ToGrid(a))
  {
    hide Pi;
    forall x: nat, y: nat | x < 5 && y < 5 ensures Pi(a)[At(x, y)] == a[At((x + 3 * y) % 5, x)] {
      Lane(a, x, y);
    }
  }

  lemma FromGrid(a: Lanes)
    ensures ToLanes(ToGrid(a)) == a
  {
  }

  /** Every table leaves lane 0, 0 where it is. */
  lemma FirstStays<T>(a: Grid<T>, r: nat, w: T)
    ensures View(a, r).a00 == a.a00 && View(a.(a00 := w), r) == View(a, r).(a00 := w)
  {
  }

  /** Moving the lanes back to their own names. */
  method P8ToP0<T>(g: Grid<T>) returns (a: Grid<T>)
    ensures a == View(g, 8)
  {
    a := g;
    var t;
    t := a.a01;
    a := a.(a01 := a.a11);
    a := a.(a11 := a.a43);
    a := a.(a43 := t);
    t := a.a02;
    a := a.(a02 := a.a22);
    a := a.(a22 := a.a31);
    a := a.(a31 := t);
    t := a.a03;
    a := a.(a03 := a.a33);
    a := a.(a33 := a.a24);
    a := a.(a24 := t);
    t := a.a04;
    a := a.(a04 := a.a44);
    a := a.(a44 := a.a12);
    a := a.(a12 := t);
    t := a.a10;
    a := a.(a10 := a.a32);
    a := a.(a32 := a.a13);
    a := a.(a13 := t);
    t := a.a14;
    a := a.(a14 := a.a21);
    a := a.(a21 := a.a20);
    a := a.(a20 := t);
    t := a.a23;
    a := a.(a23 := a.a42);
    a := a.(a42 := a.a40);
    a := a.(a40 := t);
    t := a.a30;
    a := a.(a30 := a.a41);
    a := a.(a41 := a.a34);
    a := a.(a34 := t);
  }

  // ---------------------------------------------------------------- the macros

  datatype Column<T> = Column(v0: T, v1: T, v2: T, v3: T, v4: T)

  function ColumnOf<T>(g: Grid<T>, x: nat): Column<T>
    requires x < 5
  {
    match x
    case 0 => Column(g.a00, g.a01, g.a02, g.a03, g.a04)
    case 1 => Column(g.a10, g.a11, g.a12, g.a13, g.a14)
    case 2 => Column(g.a20, g.a21, g.a22, g.a23, g.a24)
    case 3 => Column(g.a30, g.a31, g.a32, g.a33, g.a34)
    case _ => Column(g.a40, g.a41, g.a42, g.a43, g.a44)
  }

  function ThElt(c: Column<Word>, d: Column<Word>): Word {
    var tt0 := Xor(d.v0, d.v1);
    var tt1 := Xor(d.v2, d.v3);
    var tt0 := Xor(tt0, d.v4);
    var tt0 := Xor(tt0, tt1);
    var tt0 := Rotl(tt0, 1);
    var tt2 := Xor(c.v0, c.v1);
    var tt3 := Xor(c.v2, c.v3);
    var tt0 := Xor(tt0, c.v4);
    var tt2 := Xor(tt2, tt3);
    Xor(tt0, tt2)
  }

  /** The element that theta adds to column x. */
  function Element(b: Grid<Word>, x: nat): Word
    requires x < 5
  {
    match x
    case 0 => ThElt(ColumnOf(b, 4), ColumnOf(b, 1))
    case 1 => ThElt(ColumnOf(b, 0), ColumnOf(b, 2))
    case 2 => ThElt(ColumnOf(b, 1), ColumnOf(b, 3))
    case 3 => ThElt(ColumnOf(b, 2), ColumnOf(b, 4))
    case _ => ThElt(ColumnOf(b, 3), ColumnOf(b, 0))
  }

  function MacroTheta(b: Grid<Word>): Grid<Word> {
    AddToColumns(b, Element(b, 0), Element(b, 1), Element(b, 2), Element(b, 3), Element(b, 4))
  }

  function AddToColumns(b: Grid<Word>, t0: Word, t1: Word, t2: Word, t3: Word, t4: Word): Grid<Word> {
    Grid(Xor(b.a00, t0), Xor(b.a01, t0), Xor(b.a02, t0), Xor(b.a03, t0), Xor(b.a04, t0),
         Xor(b.a10, t1), Xor(b.a11, t1), Xor(b.a12, t1), Xor(b.a13, t1), Xor(b.a14, t1),
         Xor(b.a20, t2), Xor(b.a21, t2), Xor(b.a22, t2), Xor(b.a23, t2), Xor(b.a24, t2),
         Xor(b.a30, t3), Xor(b.a31, t3), Xor(b.a32, t3), Xor(b.a33, t3), Xor(b.a34, t3),
         Xor(b.a40, t4), Xor(b.a41, t4), Xor(b.a42, t4), Xor(b.a43, t4), Xor(b.a44, t4))
  }

  /** By how much the macro for rho rotates each lane; lane 0, 0 is left alone. */
  function Offsets(): Grid<nat> {
    Grid(0, 36, 3, 41, 18,
         1, 44, 10, 45, 2,
         62, 6, 43, 15, 61,
         28, 55, 25, 21, 56,
         27, 20, 39, 8, 14)
  }

  function RotateBy(w: Word, n: nat): Word
    requires n < 64
  {
    if n == 0 then w else Rotl(w, n)
  }

  function MacroRho(b: Grid<Word>): Grid<Word> {
    var n := Offsets();
    Grid(RotateBy(b.a00, n.a00), RotateBy(b.a01, n.a01), RotateBy(b.a02, n.a02), RotateBy(b.a03, n.a03), RotateBy(b.a04, n.a04),
         RotateBy(b.a10, n.a10), RotateBy(b.a11, n.a11), RotateBy(b.a12, n.a12), RotateBy(b.a13, n.a13), RotateBy(b.a14, n.a14),
         RotateBy(b.a20, n.a20), RotateBy(b.a21, n.a21), RotateBy(b.a22, n.a22), RotateBy(b.a23, n.a23), RotateBy(b.a24, n.a24),
         RotateBy(b.a30, n.a30), RotateBy(b.a31, n.a31), RotateBy(b.a32, n.a32), RotateBy(b.a33, n.a33), RotateBy(b.a34, n.a34),
         RotateBy(b.a40, n.a40), RotateBy(b.a41, n.a41), RotateBy(b.a42, n.a42), RotateBy(b.a43, n.a43), RotateBy(b.a44, n.a44))
  }

  function KhiXo(a: Word, b: Word, c: Word): Word {
    Xor(a, Or(b, c))
  }

  function KhiXa(a: Word, b: Word, c: Word): Word {
    Xor(a, And(b, c))
  }

  function MacroKhi(b: Grid<Word>): Grid<Word> {
    var n20, n41, n32, n33, n14 := Not(b.a20), Not(b.a41), Not(b.a32), Not(b.a33), Not(b.a14);
    Grid(
      a00 := KhiXo(b.a00, b.a10, b.a20), a10 := KhiXo(b.a10, n20, b.a30), a20 := KhiXa(b.a20, b.a30, b.a40),
      a30 := KhiXo(b.a30, b.a40, b.a00), a40 := KhiXa(b.a40, b.a00, b.a10),
      a01 := KhiXo(b.a01, b.a11, b.a21), a11 := KhiXa(b.a11, b.a21, b.a31), a21 := KhiXo(b.a21, b.a31, n41),
      a31 := KhiXo(b.a31, b.a41, b.a01), a41 := KhiXa(b.a41, b.a01, b.a11),
      a02 := KhiXo(b.a02, b.a12, b.a22), a12 := KhiXa(b.a12, b.a22, b.a32), a22 := KhiXa(b.a22, n32, b.a42),
      a32 := KhiXo(n32, b.a42, b.a02), a42 := KhiXa(b.a42, b.a02, b.a12),
      a03 := KhiXa(b.a03, b.a13, b.a23), a13 := KhiXo(b.a13, b.a23, b.a33), a23 := KhiXo(b.a23, n33, b.a43),
      a33 := KhiXa(n33, b.a43, b.a03), a43 := KhiXo(b.a43, b.a03, b.a13),
      a04 := KhiXa(b.a04, n14, b.a24), a14 := KhiXo(n14, b.a24, b.a34), a24 := KhiXa(b.a24, b.a34, b.a44),
      a34 := KhiXo(b.a34, b.a44, b.a04), a44 := KhiXa(b.a44, b.a04, b.a14))
  }

  function RC(k: nat): nat
    requires k < 24
  {
    match k
    case 0 => 0x1
    case 1 => 0x8082
    case 2 => 0x800000000000808A
    case 3 => 0x8000000080008000
    case 4 => 0x808B
    case 5 => 0x80000001
    case 6 => 0x8000000080008081
    case 7 => 0x8000000000008009
    case 8 => 0x8A
    case 9 => 0x88
    case 10 => 0x80008009
    case 11 => 0x8000000A
    case 12 => 0x8000808B
    case 13 => 0x800000000000008B
    case 14 => 0x8000000000008089
    case 15 => 0x8000000000008003
    case 16 => 0x8000000000008002
    case 17 => 0x8000000000000080
    case 18 => 0x800A
    case 19 => 0x800000008000000A
    case 20 => 0x8000000080008081
    case 21 => 0x8000000000008080
    case 22 => 0x80000001
    case _ => 0x8000000080008008
  }

  /** Round `k` on the names of table `r`, leaving the lanes under those of the next table. */
  function KfElt(a: Grid<Word>, r: nat, k: Word): Grid<Word>
    requires r < 8
  {
    var a := Store(MacroTheta(View(a, r)), r);
    var a := Store(MacroRho(View(a, r)), r);
    var a := Store(MacroKhi(View(a, r + 1)), r + 1);
    a.(a00 := Xor(a.a00, k))
  }

  // ---------------------------------------------------------------- complemented lanes

  function Turn(on: bool, w: Word): Word {
    if on then Not(w) else w
  }

  function Flip(m: Grid<bool>, g: Grid<Word>): Grid<Word> {
    Grid(Turn(m.a00, g.a00), Turn(m.a01, g.a01), Turn(m.a02, g.a02), Turn(m.a03, g.a03), Turn(m.a04, g.a04),
         Turn(m.a10, g.a10), Turn(m.a11, g.a11), Turn(m.a12, g.a12), Turn(m.a13, g.a13), Turn(m.a14, g.a14),
         Turn(m.a20, g.a20), Turn(m.a21, g.a21), Turn(m.a22, g.a22), Turn(m.a23, g.a23), Turn(m.a24, g.a24),
         Turn(m.a30, g.a30), Turn(m.a31, g.a31), Turn(m.a32, g.a32), Turn(m.a33, g.a33), Turn(m.a34, g.a34),
         Turn(m.a40, g.a40), Turn(m.a41, g.a41), Turn(m.a42, g.a42), Turn(m.a43, g.a43), Turn(m.a44, g.a44))
  }

  /** The lanes that are complemented between rounds. */
  function Marked(): Grid<bool> {
    Grid(false, false, false, false, true,
         true, false, false, false, false,
         true, false, true, true, false,
         false, true, false, false, false,
         false, false, false, false, false)
  }

  predicate Parity(m: Column<bool>) {
    (((m.v0 != m.v1) != m.v2) != m.v3) != m.v4
  }

  /** Is the element for column x complemented? */
  predicate ElementMask(m: Grid<bool>, x: nat)
    requires x < 5
  {
    match x
    case 0 => Parity(ColumnOf(m, 4)) != Parity(ColumnOf(m, 1))
    case 1 => Parity(ColumnOf(m, 0)) != Parity(ColumnOf(m, 2))
    case 2 => Parity(ColumnOf(m, 1)) != Parity(ColumnOf(m, 3))
    case 3 => Parity(ColumnOf(m, 2)) != Parity(ColumnOf(m, 4))
    case _ => Parity(ColumnOf(m, 3)) != Parity(ColumnOf(m, 0))
  }

  /** What theta makes of a mask. */
  function ThetaMask(m: Grid<bool>): Grid<bool> {
    MaskColumns(m, ElementMask(m, 0), ElementMask(m, 1), ElementMask(m, 2), ElementMask(m, 3), ElementMask(m, 4))
  }

  function MaskColumns(m: Grid<bool>, t0: bool, t1: bool, t2: bool, t3: bool, t4: bool): Grid<bool> {
    Grid(m.a00 != t0, m.a01 != t0, m.a02 != t0, m.a03 != t0, m.a04 != t0,
         m.a10 != t1, m.a11 != t1, m.a12 != t1, m.a13 != t1, m.a14 != t1,
         m.a20 != t2, m.a21 != t2, m.a22 != t2, m.a23 != t2, m.a24 != t2,
         m.a30 != t3, m.a31 != t3, m.a32 != t3, m.a33 != t3, m.a34 != t3,
         m.a40 != t4, m.a41 != t4, m.a42 != t4, m.a43 != t4, m.a44 != t4)
  }

  // ---------------------------------------------------------------- theta

  function SumOf(c: Column<Word>): Word {
    Sum(c.v0, c.v1, c.v2, c.v3, c.v4)
  }

  function TurnColumn(m: Column<bool>, c: Column<Word>): Column<Word> {
    Column(Turn(m.v0, c.v0), Turn(m.v1, c.v1), Turn(m.v2, c.v2), Turn(m.v3, c.v3), Turn(m.v4, c.v4))
  }

  lemma SumTurned(m: Column<bool>, c: Column<Word>)
    ensures SumOf(TurnColumn(m, c)) == Turn(Parity(m), SumOf(c))
  {
  }

  /** The element added to a column is the one of the standard, whatever the order of additions. */
  lemma ThEltIs(c: Column<Word>, d: Column<Word>)
    ensures ThElt(c, d) == Xor(SumOf(c), Rot(SumOf(d), 1))
  {
    RotlIsRot(SumOf(d), 1);
    assert Xor(Xor(Xor(d.v0, d.v1), d.v4), Xor(d.v2, d.v3)) == SumOf(d);
  }

  lemma RotlIsRot(a: Word, n: nat)
    requires 0 < n < 64
    ensures Rotl(a, n) == Rot(a, n)
  {
  }

  lemma RotTurned(on: bool, a: Word, n: nat)
    requires n < 64
    ensures Rot(Turn(on, a), n) == Turn(on, Rot(a, n))
  {
  }

  lemma XorTurned(f: bool, a: Word, g: bool, b: Word)
    ensures Xor(Turn(f, a), Turn(g, b)) == Turn(f != g, Xor(a, b))
  {
  }

  lemma ColumnSum(a: Lanes, x: nat)
    requires x < 5
    ensures SumOf(ColumnOf(ToGrid(a), x)) == C(a, x)
  {
    hide At, Sum;
  }

  /** The element for column x is what the standard adds to it. */
  lemma ElementIs(a: Lanes, x: nat)
    requires x < 5
    ensures Element(ToGrid(a), x) == D(a, x)
  {
    hide ThElt, Xor, Rot, SumOf, C, ToGrid, ColumnOf, Element;
    var c, d := (x + 4) % 5, (x + 1) % 5;
    ColumnSum(a, c);
    ColumnSum(a, d);
    ThEltIs(ColumnOf(ToGrid(a), c), ColumnOf(ToGrid(a), d));
    ElementOf(ToGrid(a), x);
  }

  lemma ElementOf(g: Grid<Word>, x: nat)
    requires x < 5
    ensures Element(g, x) == ThElt(ColumnOf(g, (x + 4) % 5), ColumnOf(g, (x + 1) % 5))
  {
    hide ThElt, ColumnOf;
  }

  lemma ThetaColumn(a: Lanes, x: nat)
    requires x < 5
    ensures Theta(a)[At(x, 0)] == Xor(a[At(x, 0)], D(a, x)) && Theta(a)[At(x, 1)] == Xor(a[At(x, 1)], D(a, x))
    ensures Theta(a)[At(x, 2)] == Xor(a[At(x, 2)], D(a, x)) && Theta(a)[At(x, 3)] == Xor(a[At(x, 3)], D(a, x))
    ensures Theta(a)[At(x, 4)] == Xor(a[At(x, 4)], D(a, x))
  {
    hide Xor, At, Theta, D, Rho, Pi, Chi, RhoLaneAt, PiLane, ChiLane;
    Lane(a, x, 0);
    Lane(a, x, 1);
    Lane(a, x, 2);
    Lane(a, x, 3);
    Lane(a, x, 4);
  }

  /** The macro for theta is theta. */
  lemma ThetaIsTheta(a: Lanes)
    ensures MacroTheta(ToGrid(a)) == ToGrid(Theta(a))
  {
    hide Element, Xor, At, Theta, D;
    ElementIs(a, 0);
    ElementIs(a, 1);
    ElementIs(a, 2);
    ElementIs(a, 3);
    ElementIs(a, 4);
    ThetaColumn(a, 0);
    ThetaColumn(a, 1);
    ThetaColumn(a, 2);
    ThetaColumn(a, 3);
    ThetaColumn(a, 4);
  }

  lemma ThEltTurned(f: Column<bool>, g: Column<bool>, c: Column<Word>, d: Column<Word>)
    ensures ThElt(TurnColumn(f, c), TurnColumn(g, d)) == Turn(Parity(f) != Parity(g), ThElt(c, d))
  {
    hide ThElt, SumOf, TurnColumn, Xor, Rot, Turn, Parity;
    ThEltIs(c, d);
    ThEltIs(TurnColumn(f, c), TurnColumn(g, d));
    SumTurned(f, c);
    SumTurned(g, d);
    RotTurned(Parity(g), SumOf(d), 1);
    XorTurned(Parity(f), SumOf(c), Parity(g), Rot(SumOf(d), 1));
  }

  lemma ColumnTurned(f: bool, t: Word, m0: bool, m1: bool, m2: bool, m3: bool, m4: bool, g0: Word, g1: Word, g2: Word, g3: Word, g4: Word)
    ensures Xor(Turn(m0, g0), Turn(f, t)) == Turn(m0 != f, Xor(g0, t)) && Xor(Turn(m1, g1), Turn(f, t)) == Turn(m1 != f, Xor(g1, t))
    ensures Xor(Turn(m2, g2), Turn(f, t)) == Turn(m2 != f, Xor(g2, t)) && Xor(Turn(m3, g3), Turn(f, t)) == Turn(m3 != f, Xor(g3, t))
    ensures Xor(Turn(m4, g4), Turn(f, t)) == Turn(m4 != f, Xor(g4, t))
  {
    hide Xor, Turn;
    XorTurned(m0, g0, f, t);
    XorTurned(m1, g1, f, t);
    XorTurned(m2, g2, f, t);
    XorTurned(m3, g3, f, t);
    XorTurned(m4, g4, f, t);
  }

  lemma AddTurned(m: Grid<bool>, g: Grid<Word>, f0: bool, f1: bool, f2: bool, f3: bool, f4: bool, t0: Word, t1: Word, t2: Word, t3: Word, t4: Word)
    ensures AddToColumns(Flip(m, g), Turn(f0, t0), Turn(f1, t1), Turn(f2, t2), Turn(f3, t3), Turn(f4, t4)) ==
            Flip(MaskColumns(m, f0, f1, f2, f3, f4), AddToColumns(g, t0, t1, t2, t3, t4))
  {
    hide Xor, Turn;
    ColumnTurned(f0, t0, m.a00, m.a01, m.a02, m.a03, m.a04, g.a00, g.a01, g.a02, g.a03, g.a04);
    ColumnTurned(f1, t1, m.a10, m.a11, m.a12, m.a13, m.a14, g.a10, g.a11, g.a12, g.a13, g.a14);
    ColumnTurned(f2, t2, m.a20, m.a21, m.a22, m.a23, m.a24, g.a20, g.a21, g.a22, g.a23, g.a24);
    ColumnTurned(f3, t3, m.a30, m.a31, m.a32, m.a33, m.a34, g.a30, g.a31, g.a32, g.a33, g.a34);
    ColumnTurned(f4, t4, m.a40, m.a41, m.a42, m.a43, m.a44, g.a40, g.a41, g.a42, g.a43, g.a44);
  }

  lemma ColumnFlips(m: Grid<bool>, g: Grid<Word>, x: nat)
    requires x < 5
    ensures ColumnOf(Flip(m, g), x) == TurnColumn(ColumnOf(m, x), ColumnOf(g, x))
  {
    hide Turn;
    match x
    case 0 =>
    case 1 =>
    case 2 =>
    case 3 =>
    case _ =>
  }

  lemma ElementTurned(m: Grid<bool>, g: Grid<Word>, x: nat)
    requires x < 5
    ensures Element(Flip(m, g), x) == Turn(ElementMask(m, x), Element(g, x))
  {
    hide ThElt, Turn, Parity, ColumnOf, TurnColumn, Flip;
    var c, d := (x + 4) % 5, (x + 1) % 5;
    ColumnFlips(m, g, c);
    ColumnFlips(m, g, d);
    ThEltTurned(ColumnOf(m, c), ColumnOf(m, d), ColumnOf(g, c), ColumnOf(g, d));
  }

  /** Complemented lanes go through theta as ThetaMask says. */
  lemma ThetaFlips(m: Grid<bool>, g: Grid<Word>)
    ensures MacroTheta(Flip(m, g)) == Flip(ThetaMask(m), MacroTheta(g))
  {
    hide Element, ElementMask, Turn, Flip, AddToColumns, MaskColumns;
    ElementTurned(m, g, 0);
    ElementTurned(m, g, 1);
    ElementTurned(m, g, 2);
    ElementTurned(m, g, 3);
    ElementTurned(m, g, 4);
    AddTurned(m, g, ElementMask(m, 0), ElementMask(m, 1), ElementMask(m, 2), ElementMask(m, 3), ElementMask(m, 4),
              Element(g, 0), Element(g, 1), Element(g, 2), Element(g, 3), Element(g, 4));
  }

  // ---------------------------------------------------------------- rho

  lemma RotateIsRot(a: Word, n: nat)
    requires n < 64
    ensures RotateBy(a, n) == Rot(a, n)
  {
    if n == 0 {
      assert Rot(a, 0) == a;
    } else {
      RotlIsRot(a, n);
    }
  }

  lemma RotateTurned(on: bool, a: Word, n: nat)
    requires n < 64
    ensures RotateBy(Turn(on, a), n) == Turn(on, RotateBy(a, n))
  {
    hide Rot, Turn, RotateBy;
    RotateIsRot(a, n);
    RotateIsRot(Turn(on, a), n);
    RotTurned(on, a, n);
  }

  lemma RhoLanes()
    ensures RhoLane(0) == (1, 0) && RhoLane(1) == (0, 2) && RhoLane(2) == (2, 1) && RhoLane(3) == (1, 2) && RhoLane(4) == (2, 3) && RhoLane(5) == (3, 3)
    ensures RhoLane(6) == (3, 0) && RhoLane(7) == (0, 1) && RhoLane(8) == (1, 3) && RhoLane(9) == (3, 1) && RhoLane(10) == (1, 4) && RhoLane(11) == (4, 4)
    ensures RhoLane(12) == (4, 0) && RhoLane(13) == (0, 3) && RhoLane(14) == (3, 4) && RhoLane(15) == (4, 3) && RhoLane(16) == (3, 2) && RhoLane(17) == (2, 2)
    ensures RhoLane(18) == (2, 0) && RhoLane(19) == (0, 4) && RhoLane(20) == (4, 2) && RhoLane(21) == (2, 4) && RhoLane(22) == (4, 1) && RhoLane(23) == (1, 1)
  {
  }

  lemma StepBack(x: nat, y: nat, u: nat, v: nat)
    requires x < 5 && y < 5 && u < 5 && v < 5
    requires (y, (2 * x + 3 * y) % 5) == (v, (2 * u + 3 * v) % 5)
    ensures x == u && y == v
  {
  }

  /** The walk over the lanes does not come back to where it was, and never meets lane 0, 0. */
  lemma {:induction false} NoRepeat(i: nat, j: nat)
    requires i < j < 24
    ensures RhoLane(i) != RhoLane(j)
  {
    if i == 0 {
      NotStart(j);
    } else if RhoLane(i) == RhoLane(j) {
      NoRepeat(i - 1, j - 1);
      StepBack(RhoLane(i - 1).0, RhoLane(i - 1).1, RhoLane(j - 1).0, RhoLane(j - 1).1);
    }
  }

  lemma NotStart(j: nat)
    requires 0 < j < 24
    ensures RhoLane(j) != RhoLane(0)
  {
    hide RhoLane;
    RhoLanes();
  }

  lemma {:induction false} NeverOrigin(t: nat)
    ensures RhoLane(t) != (0, 0) && RhoOffset(0, 0, t) == 0
  {
    if t > 0 {
      NeverOrigin(t - 1);
    }
  }

  lemma {:induction false} OffsetAt(t: nat, s: nat)
    requires t < s <= 24
    ensures RhoOffset(RhoLane(t).0, RhoLane(t).1, s) == (t + 1) * (t + 2) / 2 % 64
  {
    if s > t + 1 {
      NoRepeat(t, s - 1);
      OffsetAt(t, s - 1);
    }
  }

  /** The offsets in the macro are those of the standard. */
  lemma OffsetsAre()
    ensures RhoOffset(0, 0, 24) == 0 && RhoOffset(0, 1, 24) == 36 && RhoOffset(0, 2, 24) == 3 && RhoOffset(0, 3, 24) == 41 && RhoOffset(0, 4, 24) == 18
    ensures RhoOffset(1, 0, 24) == 1 && RhoOffset(1, 1, 24) == 44 && RhoOffset(1, 2, 24) == 10 && RhoOffset(1, 3, 24) == 45 && RhoOffset(1, 4, 24) == 2
    ensures RhoOffset(2, 0, 24) == 62 && RhoOffset(2, 1, 24) == 6 && RhoOffset(2, 2, 24) == 43 && RhoOffset(2, 3, 24) == 15 && RhoOffset(2, 4, 24) == 61
    ensures RhoOffset(3, 0, 24) == 28 && RhoOffset(3, 1, 24) == 55 && RhoOffset(3, 2, 24) == 25 && RhoOffset(3, 3, 24) == 21 && RhoOffset(3, 4, 24) == 56
    ensures RhoOffset(4, 0, 24) == 27 && RhoOffset(4, 1, 24) == 20 && RhoOffset(4, 2, 24) == 39 && RhoOffset(4, 3, 24) == 8 && RhoOffset(4, 4, 24) == 14
  {
    hide RhoOffset, RhoLane;
    NeverOrigin(24);
    RhoLanes();
    forall t: nat | t < 24 ensures RhoOffset(RhoLane(t).0, RhoLane(t).1, 24) == (t + 1) * (t + 2) / 2 % 64 {
      OffsetAt(t, 24);
    }
  }

  lemma RhoColumn(a: Lanes, x: nat)
    requires x < 5
    ensures Rho(a)[At(x, 0)] == RotateBy(a[At(x, 0)], RhoOffset(x, 0, 24))
    ensures Rho(a)[At(x, 1)] == RotateBy(a[At(x, 1)], RhoOffset(x, 1, 24))
    ensures Rho(a)[At(x, 2)] == RotateBy(a[At(x, 2)], RhoOffset(x, 2, 24))
    ensures Rho(a)[At(x, 3)] == RotateBy(a[At(x, 3)], RhoOffset(x, 3, 24))
    ensures Rho(a)[At(x, 4)] == RotateBy(a[At(x, 4)], RhoOffset(x, 4, 24))
  {
    hide At, Rho, RotateBy, RhoOffset, Theta, Pi, Chi, ThetaLane, PiLane, ChiLane;
    forall y: nat | y < 5 ensures Rho(a)[At(x, y)] == RotateBy(a[At(x, y)], RhoOffset(x, y, 24)) {
      Lane(a, x, y);
      RotateIsRot(a[At(x, y)], RhoOffset(x, y, 24));
    }
  }

  /** The macro for rho is rho. */
  lemma RhoIsRho(a: Lanes)
    ensures MacroRho(ToGrid(a)) == ToGrid(Rho(a))
  {
    hide At, Rho, RotateBy, RhoOffset;
    OffsetsAre();
    RhoColumn(a, 0);
    RhoColumn(a, 1);
    RhoColumn(a, 2);
    RhoColumn(a, 3);
    RhoColumn(a, 4);
  }

  lemma ColumnRotated(m: Column<bool>, c: Column<Word>, n0: nat, n1: nat, n2: nat, n3: nat, n4: nat)
    requires n0 < 64 && n1 < 64 && n2 < 64 && n3 < 64 && n4 < 64
    ensures RotateBy(Turn(m.v0, c.v0), n0) == Turn(m.v0, RotateBy(c.v0, n0))
    ensures RotateBy(Turn(m.v1, c.v1), n1) == Turn(m.v1, RotateBy(c.v1, n1))
    ensures RotateBy(Turn(m.v2, c.v2), n2) == Turn(m.v2, RotateBy(c.v2, n2))
    ensures RotateBy(Turn(m.v3, c.v3), n3) == Turn(m.v3, RotateBy(c.v3, n3))
    ensures RotateBy(Turn(m.v4, c.v4), n4) == Turn(m.v4, RotateBy(c.v4, n4))
  {
    hide RotateBy, Turn;
    RotateTurned(m.v0, c.v0, n0);
    RotateTurned(m.v1, c.v1, n1);
    RotateTurned(m.v2, c.v2, n2);
    RotateTurned(m.v3, c.v3, n3);
    RotateTurned(m.v4, c.v4, n4);
  }

  /** Complemented lanes stay complemented through rho. */
  lemma RhoFlips(m: Grid<bool>, g: Grid<Word>)
    ensures MacroRho(Flip(m, g)) == Flip(m, MacroRho(g))
  {
    hide RotateBy, Turn;
    var n := Offsets();
    ColumnRotated(ColumnOf(m, 0), ColumnOf(g, 0), n.a00, n.a01, n.a02, n.a03, n.a04);
    ColumnRotated(ColumnOf(m, 1), ColumnOf(g, 1), n.a10, n.a11, n.a12, n.a13, n.a14);
    ColumnRotated(ColumnOf(m, 2), ColumnOf(g, 2), n.a20, n.a21, n.a22, n.a23, n.a24);
    ColumnRotated(ColumnOf(m, 3), ColumnOf(g, 3), n.a30, n.a31, n.a32, n.a33, n.a34);
    ColumnRotated(ColumnOf(m, 4), ColumnOf(g, 4), n.a40, n.a41, n.a42, n.a43, n.a44);
  }

  // ---------------------------------------------------------------- chi

  /** The lanes that are complemented when the macro for chi runs. */
  function KhiMask(): Grid<bool> {
    PiNames(ThetaMask(Marked()))
  }

  lemma ElementMasks()
    ensures ElementMask(Marked(), 0) && !ElementMask(Marked(), 1) && !ElementMask(Marked(), 2) && ElementMask(Marked(), 3) && !ElementMask(Marked(), 4)
  {
  }

  lemma ThetaMaskIs()
    ensures ThetaMask(Marked()) == Grid(true, true, true, true, false,
                                        true, false, false, false, false,
                                        true, false, true, true, false,
                                        true, false, true, true, true,
                                        false, false, false, false, false)
  {
    hide ElementMask;
    ElementMasks();
  }

  lemma KhiMaskIs()
    ensures KhiMask() == Grid(true, true, true, false, true,
                              false, false, false, true, false,
                              true, true, true, false, false,
                              true, false, false, true, true,
                              false, false, false, true, false)
  {
    hide ThetaMask;
    ThetaMaskIs();
  }

  /** Five lanes of one row. */
  datatype Row = Row(w0: Word, w1: Word, w2: Word, w3: Word, w4: Word)

  function ChiRow(r: Row): Row {
    Row(Xor(r.w0, And(Not(r.w1), r.w2)), Xor(r.w1, And(Not(r.w2), r.w3)), Xor(r.w2, And(Not(r.w3), r.w4)),
        Xor(r.w3, And(Not(r.w4), r.w0)), Xor(r.w4, And(Not(r.w0), r.w1)))
  }

  lemma KhiRow0(r: Row)
    ensures var b0, b1, b2, b3, b4, c := Not(r.w0), r.w1, Not(r.w2), Not(r.w3), r.w4, ChiRow(r);
            && KhiXo(b0, b1, b2) == c.w0 && KhiXo(b1, Not(b2), b3) == Not(c.w1) && KhiXa(b2, b3, b4) == Not(c.w2)
            && KhiXo(b3, b4, b0) == c.w3 && KhiXa(b4, b0, b1) == c.w4
  {
  }

  lemma KhiRow1(r: Row)
    ensures var b0, b1, b2, b3, b4, c := Not(r.w0), r.w1, Not(r.w2), r.w3, r.w4, ChiRow(r);
            && KhiXo(b0, b1, b2) == c.w0 && KhiXa(b1, b2, b3) == c.w1 && KhiXo(b2, b3, Not(b4)) == c.w2
            && KhiXo(b3, b4, b0) == Not(c.w3) && KhiXa(b4, b0, b1) == c.w4
  {
  }

  lemma KhiRow2(r: Row)
    ensures var b0, b1, b2, b3, b4, c := Not(r.w0), r.w1, Not(r.w2), r.w3, r.w4, ChiRow(r);
            && KhiXo(b0, b1, b2) == c.w0 && KhiXa(b1, b2, b3) == c.w1 && KhiXa(b2, Not(b3), b4) == Not(c.w2)
            && KhiXo(Not(b3), b4, b0) == c.w3 && KhiXa(b4, b0, b1) == c.w4
  {
  }

  lemma KhiRow3(r: Row)
    ensures var b0, b1, b2, b3, b4, c := r.w0, Not(r.w1), r.w2, Not(r.w3), Not(r.w4), ChiRow(r);
            && KhiXa(b0, b1, b2) == c.w0 && KhiXo(b1, b2, b3) == c.w1 && KhiXo(b2, Not(b3), b4) == Not(c.w2)
            && KhiXa(Not(b3), b4, b0) == c.w3 && KhiXo(b4, b0, b1) == c.w4
  {
  }

  lemma KhiRow4(r: Row)
    ensures var b0, b1, b2, b3, b4, c := Not(r.w0), r.w1, r.w2, Not(r.w3), r.w4, ChiRow(r);
            && KhiXa(b0, Not(b1), b2) == Not(c.w0) && KhiXo(Not(b1), b2, b3) == c.w1 && KhiXa(b2, b3, b4) == c.w2
            && KhiXo(b3, b4, b0) == c.w3 && KhiXa(b4, b0, b1) == c.w4
  {
  }

  function RowOf(g: Grid<Word>, y: nat): Row
    requires y < 5
  {
    match y
    case 0 => Row(g.a00, g.a10, g.a20, g.a30, g.a40)
    case 1 => Row(g.a01, g.a11, g.a21, g.a31, g.a41)
    case 2 => Row(g.a02, g.a12, g.a22, g.a32, g.a42)
    case 3 => Row(g.a03, g.a13, g.a23, g.a33, g.a43)
    case _ => Row(g.a04, g.a14, g.a24, g.a34, g.a44)
  }

  lemma ChiRows(a: Lanes, y: nat)
    requires y < 5
    ensures RowOf(ToGrid(Chi(a)), y) == ChiRow(RowOf(ToGrid(a), y))
  {
    hide At, Chi, Xor, And, Not, Theta, Rho, Pi, ThetaLane, RhoLaneAt, PiLane;
    Lane(a, 0, y);
    Lane(a, 1, y);
    Lane(a, 2, y);
    Lane(a, 3, y);
    Lane(a, 4, y);
  }

  /** The macro for chi, on lanes complemented as they then are, is chi, and leaves just the marked
  lanes complemented. */
  lemma KhiIsChi(a: Lanes)
    ensures MacroKhi(Flip(KhiMask(), ToGrid(a))) == Flip(Marked(), ToGrid(Chi(a)))
  {
    hide At, Chi, KhiXo, KhiXa, Not, ChiRow, KhiMask;
    KhiMaskIs();
    KhiRow0(RowOf(ToGrid(a), 0));
    KhiRow1(RowOf(ToGrid(a), 1));
    KhiRow2(RowOf(ToGrid(a), 2));
    KhiRow3(RowOf(ToGrid(a), 3));
    KhiRow4(RowOf(ToGrid(a), 4));
    ChiRows(a, 0);
    ChiRows(a, 1);
    ChiRows(a, 2);
    ChiRows(a, 3);
    ChiRows(a, 4);
  }

  // ---------------------------------------------------------------- round constants

  function After7(r: Register): Register {
    r.Step().Step().Step().Step().Step().Step().Step()
  }

  datatype Seven = Seven(b0: bool, b1: bool, b2: bool, b3: bool, b4: bool, b5: bool, b6: bool)

  /** Seven bits from the register on. */
  function SevenOf(r: Register): Seven {
    var r1 := r.Step();
    var r2 := r1.Step();
    var r3 := r2.Step();
    var r4 := r3.Step();
    var r5 := r4.Step();
    var r6 := r5.Step();
    Seven(r.r0, r1.r0, r2.r0, r3.r0, r4.r0, r5.r0, r6.r0)
  }

  lemma SevenIs(t: nat)
    requires t < 200
    ensures RegisterAt(t + 7) == After7(RegisterAt(t))
    ensures Seven(Rc(t), Rc(t + 1), Rc(t + 2), Rc(t + 3), Rc(t + 4), Rc(t + 5), Rc(t + 6)) == SevenOf(RegisterAt(t))
  {
    hide Rc, Register.Step;
    StepAt(t);
    StepAt(t + 1);
    StepAt(t + 2);
    StepAt(t + 3);
    StepAt(t + 4);
    StepAt(t + 5);
    StepAt(t + 6);
  }

  lemma StepAt(t: nat)
    requires t < 255
    ensures RegisterAt(t + 1) == RegisterAt(t).Step() && Rc(t) == RegisterAt(t).r0
  {
  }

  function V(b: bool): nat {
    if b then 1 else 0
  }

  /** The number with these bits in the places a round constant has them. */
  function Number(b0: bool, b1: bool, b2: bool, b3: bool, b4: bool, b5: bool, b6: bool): nat {
    V(b0) + 2 * V(b1) + 8 * V(b2) + 0x80 * V(b3) + 0x8000 * V(b4) + 0x80000000 * V(b5) + 0x8000000000000000 * V(b6)
  }

  lemma {:induction false} ZeroRun(m: nat, j: nat, p: nat, k: nat)
    requires p == Power2(j) && j <= k
    ensures Digits(p * m, k) == seq(j, _ => false) + Digits(m, k - j)
  {
    if j > 0 {
      var q := Power2(j - 1);
      assert p * m == 2 * (q * m);
      ZeroRun(m, j - 1, q, k - 1);
    }
  }

  lemma Powers()
    ensures Power2(3) == 8 && Power2(7) == 0x80 && Power2(15) == 0x8000 && Power2(31) == 0x80000000
  {
    assert Power2(8) == 0x100;
    assert Power2(16) == 0x10000;
    assert Power2(24) == 0x1000000;
  }

  lemma OneDigit(b: bool, m: nat, k: nat)
    requires k > 0
    ensures Digits(V(b) + 2 * m, k) == [b] + Digits(m, k - 1)
  {
  }

  /** The digits from bit 3 on. */
  lemma UpperBits(b2: bool, b3: bool, b4: bool, b5: bool, b6: bool)
    ensures Digits(V(b2) + 2 * (8 * (V(b3) + 2 * (0x80 * (V(b4) + 2 * (0x8000 * (V(b5) + 2 * (0x80000000 * V(b6)))))))), 61) ==
            [b2] + (seq(3, _ => false) + ([b3] + (seq(7, _ => false) + ([b4] + (seq(15, _ => false) + ([b5] + (seq(31, _ => false) + [b6])))))))
  {
    hide Digits, V, Power2;
    Powers();
    var m63 := V(b6);
    var m31 := V(b5) + 2 * (0x80000000 * m63);
    var m15 := V(b4) + 2 * (0x8000 * m31);
    var m7 := V(b3) + 2 * (0x80 * m15);
    OneDigit(b2, 8 * m7, 61);
    ZeroRun(m7, 3, 8, 60);
    OneDigit(b3, 0x80 * m15, 57);
    ZeroRun(m15, 7, 0x80, 56);
    OneDigit(b4, 0x8000 * m31, 49);
    ZeroRun(m31, 15, 0x8000, 48);
    OneDigit(b5, 0x80000000 * m63, 33);
    ZeroRun(m63, 31, 0x80000000, 32);
    LastDigit(b6);
  }

  lemma LastDigit(b: bool)
    ensures Digits(V(b), 1) == [b]
  {
    OneDigit(b, 0, 1);
  }

  lemma NumberBits(b0: bool, b1: bool, b2: bool, b3: bool, b4: bool, b5: bool, b6: bool)
    ensures FromNat(Number(b0, b1, b2, b3, b4, b5, b6)) == Sparse(b0, b1, b2, b3, b4, b5, b6)
  {
    hide Digits, V, Sparse;
    var m3 := V(b2) + 2 * (8 * (V(b3) + 2 * (0x80 * (V(b4) + 2 * (0x8000 * (V(b5) + 2 * (0x80000000 * V(b6))))))));
    NoBit();
    assert Number(b0, b1, b2, b3, b4, b5, b6) == V(b0) + 2 * (V(b1) + 2 * (V(false) + 2 * m3));
    OneDigit(b0, V(b1) + 2 * (V(false) + 2 * m3), 64);
    OneDigit(b1, V(false) + 2 * m3, 63);
    OneDigit(false, m3, 62);
    UpperBits(b2, b3, b4, b5, b6);
    Spread(FromNat(Number(b0, b1, b2, b3, b4, b5, b6)), b0, b1, b2, b3, b4, b5, b6);
  }

  lemma NoBit()
    ensures V(false) == 0
  {
  }

  lemma Spread(w: Word, b0: bool, b1: bool, b2: bool, b3: bool, b4: bool, b5: bool, b6: bool)
    requires w == [b0] + ([b1] + ([false] + ([b2] + (seq(3, _ => false) + ([b3] + (seq(7, _ => false) + ([b4] + (seq(15, _ => false) + ([b5] + (seq(31, _ => false) + [b6]))))))))))
    ensures w == Sparse(b0, b1, b2, b3, b4, b5, b6)
  {
  }

  lemma NextConstant(ir: nat, r: Register, b: Seven, after: Register)
    requires ir < 24 && RegisterAt(7 * ir) == r && SevenOf(r) == b && After7(r) == after
    requires RC(ir) == Number(b.b0, b.b1, b.b2, b.b3, b.b4, b.b5, b.b6)
    ensures RegisterAt(7 * (ir + 1)) == after && FromNat(RC(ir)) == RoundConstant(ir)
  {
    hide RC, Number, Sparse, Rc, RegisterAt, SevenOf, After7, FromNat;
    SevenIs(7 * ir);
    NumberBits(b.b0, b.b1, b.b2, b.b3, b.b4, b.b5, b.b6);
  }

  lemma Numbers0()
    ensures RC(0) == Number(true, false, false, false, false, false, false)
    ensures RC(1) == Number(false, true, false, true, true, false, false)
    ensures RC(2) == Number(false, true, true, true, true, false, true)
    ensures RC(3) == Number(false, false, false, false, true, true, true)
    ensures RC(4) == Number(true, true, true, true, true, false, false)
    ensures RC(5) == Number(true, false, false, false, false, true, false)
  {
  }

  lemma RoundConstants0()
    requires RegisterAt(0) == Register(true, false, false, false, false, false, false, false)
    ensures forall ir | 0 <= ir < 6 :: FromNat(RC(ir)) == RoundConstant(ir)
    ensures RegisterAt(42) == Register(true, false, true, false, true, true, false, false)
  {
    hide RegisterAt, RoundConstant, FromNat, RC, Number;
    Numbers0();
    NextConstant(0, Register(true, false, false, false, false, false, false, false),
                 Seven(true, false, false, false, false, false, false), Register(false, false, false, false, false, false, false, true));
    NextConstant(1, Register(false, false, false, false, false, false, false, true),
                 Seven(false, true, false, true, true, false, false), Register(false, false, false, true, true, false, true, true));
    NextConstant(2, Register(false, false, false, true, true, false, true, true),
                 Seven(false, true, true, true, true, false, true), Register(false, true, false, true, true, false, false, false));
    NextConstant(3, Register(false, true, false, true, true, false, false, false),
                 Seven(false, false, false, false, true, true, true), Register(true, true, true, true, true, false, true, true));
    NextConstant(4, Register(true, true, true, true, true, false, true, true),
                 Seven(true, true, true, true, true, false, false), Register(true, false, false, true, false, false, false, false));
    NextConstant(5, Register(true, false, false, true, false, false, false, false),
                 Seven(true, false, false, false, false, true, false), Register(true, false, true, false, true, true, false, false));
  }

  lemma Numbers1()
    ensures RC(6) == Number(true, false, false, true, true, true, true)
    ensures RC(7) == Number(true, false, true, false, true, false, true)
    ensures RC(8) == Number(false, true, true, true, false, false, false)
    ensures RC(9) == Number(false, false, true, true, false, false, false)
    ensures RC(10) == Number(true, false, true, false, true, true, false)
    ensures RC(11) == Number(false, true, true, false, false, true, false)
  {
  }

  lemma RoundConstants1()
    requires RegisterAt(42) == Register(true, false, true, false, true, true, false, false)
    ensures forall ir | 6 <= ir < 12 :: FromNat(RC(ir)) == RoundConstant(ir)
    ensures RegisterAt(84) == Register(true, false, true, false, true, false, true, true)
  {
    hide RegisterAt, RoundConstant, FromNat, RC, Number;
    Numbers1();
    NextConstant(6, Register(true, false, true, false, true, true, false, false),
                 Seven(true, false, false, true, true, true, true), Register(true, true, true, true, false, false, true, false));
    NextConstant(7, Register(true, true, true, true, false, false, true, false),
                 Seven(true, false, true, false, true, false, true), Register(false, true, false, true, false, false, true, true));
    NextConstant(8, Register(false, true, false, true, false, false, true, true),
                 Seven(false, true, true, true, false, false, false), Register(false, false, false, false, true, true, true, false));
    NextConstant(9, Register(false, false, false, false, true, true, true, false),
                 Seven(false, false, true, true, false, false, false), Register(true, false, false, false, false, false, true, false));
    NextConstant(10, Register(true, false, false, false, false, false, true, false),
                 Seven(true, false, true, false, true, true, false), Register(false, false, true, true, false, true, true, true));
    NextConstant(11, Register(false, false, true, true, false, true, true, true),
                 Seven(false, true, true, false, false, true, false), Register(true, false, true, false, true, false, true, true));
  }

  lemma Numbers2()
    ensures RC(12) == Number(true, true, true, true, true, true, false)
    ensures RC(13) == Number(true, true, true, true, false, false, true)
    ensures RC(14) == Number(true, false, true, true, true, false, true)
    ensures RC(15) == Number(true, true, false, false, true, false, true)
    ensures RC(16) == Number(false, true, false, false, true, false, true)
    ensures RC(17) == Number(false, false, false, true, false, false, true)
  {
  }

  lemma RoundConstants2()
    requires RegisterAt(84) == Register(true, false, true, false, true, false, true, true)
    ensures forall ir | 12 <= ir < 18 :: FromNat(RC(ir)) == RoundConstant(ir)
    ensures RegisterAt(126) == Register(false, true, false, false, true, true, true, true)
  {
    hide RegisterAt, RoundConstant, FromNat, RC, Number;
    Numbers2();
    NextConstant(12, Register(true, false, true, false, true, false, true, true),
                 Seven(true, true, true, true, true, true, false), Register(true, false, true, true, false, false, true, true));
    NextConstant(13, Register(true, false, true, true, false, false, true, true),
                 Seven(true, true, true, true, false, false, true), Register(true, true, false, false, false, true, true, false));
    NextConstant(14, Register(true, true, false, false, false, true, true, false),
                 Seven(true, false, true, true, true, false, true), Register(true, true, false, true, false, true, false, true));
    NextConstant(15, Register(true, true, false, true, false, true, false, true),
                 Seven(true, true, false, false, true, false, true), Register(false, true, false, true, false, true, false, true));
    NextConstant(16, Register(false, true, false, true, false, true, false, true),
                 Seven(false, true, false, false, true, false, true), Register(false, true, false, true, false, true, false, false));
    NextConstant(17, Register(false, true, false, true, false, true, false, false),
                 Seven(false, false, false, true, false, false, true), Register(false, true, false, false, true, true, true, true));
  }

  lemma Numbers3()
    ensures RC(18) == Number(false, true, true, false, true, false, false)
    ensures RC(19) == Number(false, true, true, false, false, true, true)
    ensures RC(20) == Number(true, false, false, true, true, true, true)
    ensures RC(21) == Number(false, false, false, true, true, false, true)
    ensures RC(22) == Number(true, false, false, false, false, true, false)
    ensures RC(23) == Number(false, false, true, false, true, true, true)
  {
  }

  lemma RoundConstants3()
    requires RegisterAt(126) == Register(false, true, false, false, true, true, true, true)
    ensures forall ir | 18 <= ir < 24 :: FromNat(RC(ir)) == RoundConstant(ir)
    ensures RegisterAt(168) == Register(false, true, true, true, false, false, false, true)
  {
    hide RegisterAt, RoundConstant, FromNat, RC, Number;
    Numbers3();
    NextConstant(18, Register(false, true, false, false, true, true, true, true),
                 Seven(false, true, true, false, true, false, false), Register(false, false, false, true, false, true, true, true));
    NextConstant(19, Register(false, false, false, true, false, true, true, true),
                 Seven(false, true, true, false, false, true, true), Register(true, true, true, false, true, true, false, false));
    NextConstant(20, Register(true, true, true, false, true, true, false, false),
                 Seven(true, false, false, true, true, true, true), Register(false, true, true, true, true, true, false, false));
    NextConstant(21, Register(false, true, true, true, true, true, false, false),
                 Seven(false, false, false, true, true, false, true), Register(true, true, false, true, false, false, false, false));
    NextConstant(22, Register(true, true, false, true, false, false, false, false),
                 Seven(true, false, false, false, false, true, false), Register(false, false, true, false, false, false, true, false));
    NextConstant(23, Register(false, false, true, false, false, false, true, false),
                 Seven(false, false, true, false, true, true, true), Register(false, true, true, true, false, false, false, true));
  }

  lemma FirstRegister()
    ensures RegisterAt(0) == Register(true, false, false, false, false, false, false, false)
  {
  }

  /** The table of constants is the one the standard generates. */
  lemma RoundConstantIs(ir: nat)
    requires ir < 24
    ensures FromNat(RC(ir)) == RoundConstant(ir)
  {
    hide RegisterAt, RoundConstant, FromNat, RC;
    FirstRegister();
    RoundConstants0();
    RoundConstants1();
    RoundConstants2();
    RoundConstants3();
  }

  // ---------------------------------------------------------------- one round, and all of them

  lemma PiFlips(m: Grid<bool>, g: Grid<Word>)
    ensures PiNames(Flip(m, g)) == Flip(PiNames(m), PiNames(g))
  {
    hide Turn;
  }

  lemma AddConstant(s: Lanes, ir: nat)
    ensures var g := Flip(Marked(), ToGrid(s));
            g.(a00 := Xor(g.a00, RoundConstant(ir))) == Flip(Marked(), ToGrid(Iota(s, ir)))
  {
    hide RoundConstant, Xor, Not;
  }

  /** A round on complemented, renamed lanes is a round of the standard. */
  lemma RoundIs(a: Grid<Word>, s: Lanes, r: nat, ir: nat)
    requires r < 8 && ir < 24 && View(a, r) == Flip(Marked(), ToGrid(s))
    ensures View(KfElt(a, r, FromNat(RC(ir))), r + 1) == Flip(Marked(), ToGrid(Round(s, ir)))
  {
    hide View, Store, Flip, Marked, ThetaMask, MacroTheta, MacroRho, MacroKhi, ToGrid, Theta, Rho, Pi, Chi, Iota, PiNames, RoundConstant, RC, FromNat, Xor;
    var m, k := Marked(), FromNat(RC(ir));
    RoundConstantIs(ir);
    ThetaFlips(m, ToGrid(s));
    ThetaIsTheta(s);
    var s1 := Theta(s);
    var t1 := MacroTheta(View(a, r));
    StoreView(t1, r);
    RhoFlips(ThetaMask(m), ToGrid(s1));
    RhoIsRho(s1);
    var s2 := Rho(s1);
    var t2 := MacroRho(t1);
    TablesFollowPi(t2, r);
    PiFlips(ThetaMask(m), ToGrid(s2));
    PiIsPi(s2);
    KhiIsChi(Pi(s2));
    var s3 := Chi(Pi(s2));
    var t3 := MacroKhi(PiNames(t2));
    StoreView(t3, r + 1);
    var a3 := Store(t3, r + 1);
    FirstStays(a3, r + 1, Xor(a3.a00, k));
    AddConstant(s3, ir);
  }

  /** Round `r` of the eight that start at round `j`. */
  lemma RoundOf(a: Grid<Word>, s: Lanes, r: nat, j: nat)
    requires r < 8 && j + r < 24 && View(a, r) == Flip(Marked(), ToGrid(Rounds(s, j + r)))
    ensures View(KfElt(a, r, FromNat(RC(j + r))), r + 1) == Flip(Marked(), ToGrid(Rounds(s, j + r + 1)))
  {
    hide View, Flip, Marked, ToGrid, KfElt, RC, FromNat, Round;
    RoundIs(a, Rounds(s, j + r), r, j + r);
  }

  lemma FirstView<T>(a: Grid<T>)
    ensures View(a, 0) == a
  {
  }

  /** The permutation as the macro has it, eight rounds at a time. */
  method Permute(g: Grid<Word>, ghost s: Lanes) returns (a: Grid<Word>)
    requires g == Flip(Marked(), ToGrid(s))
    ensures a == Flip(Marked(), ToGrid(Fips202.KeccakF(s)))
  {
    hide View, Flip, Marked, ToGrid, KfElt, RC, FromNat, Round;
    a := g;
    var j := 0;
    while j < 24
      invariant 0 <= j <= 24 && j % 8 == 0 && a == Flip(Marked(), ToGrid(Rounds(s, j)))
    {
      FirstView(a);
      RoundOf(a, s, 0, j);
      a := KfElt(a, 0, FromNat(RC(j + 0)));
      RoundOf(a, s, 1, j);
      a := KfElt(a, 1, FromNat(RC(j + 1)));
      RoundOf(a, s, 2, j);
      a := KfElt(a, 2, FromNat(RC(j + 2)));
      RoundOf(a, s, 3, j);
      a := KfElt(a, 3, FromNat(RC(j + 3)));
      RoundOf(a, s, 4, j);
      a := KfElt(a, 4, FromNat(RC(j + 4)));
      RoundOf(a, s, 5, j);
      a := KfElt(a, 5, FromNat(RC(j + 5)));
      RoundOf(a, s, 6, j);
      a := KfElt(a, 6, FromNat(RC(j + 6)));
      RoundOf(a, s, 7, j);
      a := KfElt(a, 7, FromNat(RC(j + 7)));
      a := P8ToP0(a);
      j := j + 8;
    }
  }
}

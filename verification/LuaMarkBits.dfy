/** The field `marked` (lgc.h:64-101) as lgc.c has it: a byte, changed in place by bit tricks.  Each
    of them is the operation on colours that the modules LuaHeap and LuaCollector use, on the heap that
    the bytes stand for; so is the loop of sweeplist, which reads and writes bytes only. */
module LuaMarkBits {
  import opened Wrappers
  import opened LuaHeap
  import opened LuaCollector

  const WHITE0: bv8 := 0x01
  const WHITE1: bv8 := 0x02
  const BLACK: bv8 := 0x04
  const FINALIZED: bv8 := 0x08
  const WHITEBITS: bv8 := 0x03
  const MASKCOLORS: bv8 := 0xF8

  /** At most one of the three colour bits is set. */
  predicate OneColour(m: bv8) {
    var c := m & 0x07;
    c == 0 || c == WHITE0 || c == WHITE1 || c == BLACK
  }

  /** `currentwhite` is one of the two white bits. */
  predicate WhiteBit(cw: bv8) {
    cw == WHITE0 || cw == WHITE1
  }

  function ToColour(m: bv8): Colour {
    if m & WHITE0 != 0 then White(false)
    else if m & WHITE1 != 0 then White(true)
    else if m & BLACK != 0 then Black
    else Gray
  }

  predicate IsFinalized(m: bv8) {
    m & FINALIZED != 0
  }

  function OtherWhite(cw: bv8): (r: bv8)
    requires WhiteBit(cw)
    ensures WhiteBit(r) && r != cw
    ensures ToColour(r) == White(!ToColour(cw).bit)
  {
    cw ^ WHITEBITS
  }

  /** isdeadm(otherwhite(g), m): exactly the objects in the other white are dead. */
  predicate IsDead(cw: bv8, m: bv8): (r: bool)
    requires WhiteBit(cw) && OneColour(m)
    ensures r <==> ToColour(m) == White(!ToColour(cw).bit)
  {
    (m ^ WHITEBITS) & OtherWhite(cw) == 0
  }

  predicate IsWhiteMark(m: bv8): (r: bool)
    ensures r <==> ToColour(m).White?
  {
    m & WHITEBITS != 0
  }

  predicate IsGrayMark(m: bv8): (r: bool)
    ensures r <==> ToColour(m).Gray?
  {
    m & (WHITEBITS | BLACK) == 0
  }

  /** makewhite, and the recolouring in sweeplist (lgc.c:746). */
  function MakeWhite(cw: bv8, m: bv8): (r: bv8)
    requires WhiteBit(cw)
    ensures OneColour(r) && ToColour(r) == ToColour(cw) && (IsFinalized(r) <==> IsFinalized(m))
    ensures r & 0xF0 == m & 0xF0
  {
    (m & MASKCOLORS) | (cw & WHITEBITS)
  }

  function White2Gray(m: bv8): (r: bv8)
    requires OneColour(m)
    ensures OneColour(r) && (IsFinalized(r) <==> IsFinalized(m))
    ensures ToColour(r) == if ToColour(m).White? then Gray else ToColour(m)
    ensures r & 0xF0 == m & 0xF0
  {
    m & 0xFC
  }

  function Gray2Black(m: bv8): (r: bv8)
    requires OneColour(m) && !ToColour(m).White?
    ensures OneColour(r) && ToColour(r) == Black && (IsFinalized(r) <==> IsFinalized(m))
    ensures r & 0xF0 == m & 0xF0
  {
    m | BLACK
  }

  function Black2Gray(m: bv8): (r: bv8)
    requires OneColour(m) && !ToColour(m).White?
    ensures OneColour(r) && ToColour(r) == Gray && (IsFinalized(r) <==> IsFinalized(m))
    ensures r & 0xF0 == m & 0xF0
  {
    m & 0xFB
  }

  /** l_setbit and resetbit on FINALIZEDBIT leave the colour alone. */
  function SetFinalized(m: bv8, on: bool): (r: bv8)
    ensures ToColour(r) == ToColour(m) && (OneColour(m) ==> OneColour(r)) && (IsFinalized(r) <==> on)
    ensures r & 0xF0 == m & 0xF0
  {
    if on then m | FINALIZED else m & 0xF7
  }

  // ---------- the heap that the bytes stand for ----------

  /** An object with its byte. */
  datatype Cell = Cell(kind: Kind, marked: bv8, meta: Option<Ref>, refs: seq<Ref>)

  type Cells = map<Ref, Cell>

  function ToObj(c: Cell): Obj {
    Obj(c.kind, ToColour(c.marked), IsFinalized(c.marked), c.meta, c.refs)
  }

  function ToHeap(h: Cells): map<Ref, Obj> {
    map x | x in h :: ToObj(h[x])
  }

  ghost predicate WellMarked(h: Cells) {
    forall x :: x in h ==> OneColour(h[x].marked)
  }

  /** A byte of one object is written. */
  lemma WriteMark(h: Cells, x: Ref, m: bv8)
    requires WellMarked(h) && x in h && OneColour(m)
    ensures WellMarked(h[x := h[x].(marked := m)])
    ensures ToHeap(h[x := h[x].(marked := m)])
         == ToHeap(h)[x := ToHeap(h)[x].(colour := ToColour(m), finalized := IsFinalized(m))]
  {
  }

  lemma DropCell(h: Cells, x: Ref)
    requires WellMarked(h)
    ensures WellMarked(h - {x}) && ToHeap(h - {x}) == ToHeap(h) - {x}
  {
  }

  /** The objects, and the byte `currentwhite` of global_State. */
  class MarkedHeap {
    var cells: Cells
    var currentwhite: bv8

    ghost predicate Valid()
      reads this
    {
      WellMarked(cells) && WhiteBit(currentwhite)
    }

    ghost function Objects(): map<Ref, Obj>
      reads this
    {
      ToHeap(cells)
    }

    ghost function White(): bool
      reads this
      requires Valid()
    {
      ToColour(currentwhite).bit
    }

    constructor (cells: Cells, currentwhite: bv8)
      requires WellMarked(cells) && WhiteBit(currentwhite)
      ensures Valid() && Objects() == ToHeap(cells)
    {
      this.cells, this.currentwhite := cells, currentwhite;
    }

    /** iswhite, isgray (lgc.h:87-90) and isdead (lgc.h:96). */
    method Test(x: Ref) returns (white: bool, gray: bool, dead: bool)
      requires Valid() && x in cells
      ensures white == Objects()[x].colour.White? && gray == Objects()[x].colour.Gray?
      ensures dead == (Objects()[x].colour == Colour.White(!White()))
    {
      white, gray := IsWhiteMark(cells[x].marked), IsGrayMark(cells[x].marked);
      dead := IsDead(currentwhite, cells[x].marked);
    }

    /** makewhite (lgc.c:66-68). */
    method Whiten(x: Ref)
      requires Valid() && x in cells
      modifies this`cells
      ensures Valid() && Objects() == old(Objects()[x := Objects()[x].(colour := Colour.White(White()))])
      ensures cells.Keys == old(cells.Keys)
    {
      WriteMark(cells, x, MakeWhite(currentwhite, cells[x].marked));
      cells := cells[x := cells[x].(marked := MakeWhite(currentwhite, cells[x].marked))];
    }

    /** white2gray (lgc.c:70). */
    method WhiteToGray(x: Ref)
      requires Valid() && x in cells && Objects()[x].colour.White?
      modifies this`cells
      ensures Valid() && Objects() == old(Objects()[x := Objects()[x].(colour := Gray)])
    {
      WriteMark(cells, x, White2Gray(cells[x].marked));
      cells := cells[x := cells[x].(marked := White2Gray(cells[x].marked))];
    }

    /** gray2black (lgc.h:99). */
    method GrayToBlack(x: Ref)
      requires Valid() && x in cells && !Objects()[x].colour.White?
      modifies this`cells
      ensures Valid() && Objects() == old(Objects()[x := Objects()[x].(colour := Black)])
    {
      WriteMark(cells, x, Gray2Black(cells[x].marked));
      cells := cells[x := cells[x].(marked := Gray2Black(cells[x].marked))];
    }

    /** black2gray (lgc.c:71). */
    method BlackToGray(x: Ref)
      requires Valid() && x in cells && !Objects()[x].colour.White?
      modifies this`cells
      ensures Valid() && Objects() == old(Objects()[x := Objects()[x].(colour := Gray)])
    {
      WriteMark(cells, x, Black2Gray(cells[x].marked));
      cells := cells[x := cells[x].(marked := Black2Gray(cells[x].marked))];
    }

    /** l_setbit and resetbit on FINALIZEDBIT (lgc.c:793, 916). */
    method Finalize(x: Ref, on: bool)
      requires Valid() && x in cells
      modifies this`cells
      ensures Valid() && Objects() == old(Objects()[x := Objects()[x].(finalized := on)])
    {
      WriteMark(cells, x, SetFinalized(cells[x].marked, on));
      cells := cells[x := cells[x].(marked := SetFinalized(cells[x].marked, on))];
    }

    /** The flip at the end of the atomic step (lgc.c:1020). */
    method Flip()
      requires Valid()
      modifies this`currentwhite
      ensures Valid() && White() == !old(White())
    {
      currentwhite := OtherWhite(currentwhite);
    }

    /** sweeplist (lgc.c:734-751) on the bytes. */
    method SweepList(pre: seq<Ref>, rest: seq<Ref>, count: nat) returns (l: seq<Ref>, p: Cursor)
      requires Valid() && NoDup(rest) && forall x :: x in rest ==> x in cells
      modifies this`cells
      ensures Valid()
      ensures var r := LuaCollector.SweepList(old(Objects()), White(), pre, rest, count);
        Objects() == r.heap && l == r.pre + r.rest && p == CursorAt(r.pre, r.rest)
    {
      ghost var s := LuaCollector.SweepList(Objects(), White(), pre, rest, count);
      var before, ahead, n := pre, rest, count;
      while ahead != [] && n > 0
        invariant Valid() && NoDup(ahead) && forall x :: x in ahead ==> x in cells
        invariant LuaCollector.SweepList(Objects(), White(), before, ahead, n) == s
        decreases |ahead|
      {
        HeadApart(ahead);
        var curr := ahead[0];
        if IsDead(currentwhite, cells[curr].marked) {
          DropCell(cells, curr);
          cells := cells - {curr};
        } else {
          Whiten(curr);
          before := before + [curr];
        }
        ahead, n := ahead[1..], n - 1;
      }
      l, p := before + ahead, CursorAt(before, ahead);
    }
  }

  lemma HeadApart(l: seq<Ref>)
    requires l != [] && NoDup(l)
    ensures NoDup(l[1..]) && l[0] !in l[1..]
  {
    assert [l[0]] + l[1..] == l;
    NoDupConcat([l[0]], l[1..]);
  }
}

/** Line information of the Lua compiler and its decoder (3rdparty/lua-5.5.0/lcode.c and ldebug.c):
    one signed byte per instruction holding the difference to the previous line, and absolute entries
    where a difference does not fit or 128 instructions have passed. */
module LineInfo {
  import opened Wrappers

  const ABSLINEINFO: int := -0x80
  const LIMLINEDIFF: int := 0x80
  const MAXIWTHABS: int := 128

  datatype Abs = Abs(pc: nat, line: int)

  /** The line before instruction `p`. */
  ghost function Prev(lines: seq<int>, p: nat, start: int): int
    requires p <= |lines|
  {
    if p == 0 then start else lines[p - 1]
  }

  /** Where the last stretch of relative entries starts. */
  ghost function Base(abs: seq<Abs>): nat {
    if abs == [] then 0 else abs[|abs| - 1].pc
  }

  ghost predicate Listed(abs: seq<Abs>, p: nat) {
    exists i :: 0 <= i < |abs| && abs[i].pc == p
  }

  /** The byte of instruction `p` is its difference to the line before, or a mark for an absolute
      entry. */
  ghost predicate Fits(info: seq<int>, abs: seq<Abs>, lines: seq<int>, start: int, p: nat)
    requires p < |lines| <= |info|
  {
    if info[p] == ABSLINEINFO then Listed(abs, p)
    else info[p] == lines[p] - Prev(lines, p, start) && -LIMLINEDIFF < info[p] < LIMLINEDIFF
  }

  /** The absolute entries stand at marked instructions, in order, with their lines, and the k-th of
      them comes no later than instruction 128 k. */
  ghost predicate Absolute(info: seq<int>, abs: seq<Abs>, lines: seq<int>)
    requires |lines| <= |info|
  {
    && (forall i, j :: 0 <= i < j < |abs| ==> abs[i].pc < abs[j].pc)
    && (forall i :: 0 <= i < |abs| ==>
          abs[i].pc < |lines| && info[abs[i].pc] == ABSLINEINFO && abs[i].line == lines[abs[i].pc])
    && (forall i :: 0 <= i < |abs| ==> abs[i].pc <= MAXIWTHABS * (i + 1))
    && |lines| <= MAXIWTHABS * (|abs| + 1)
  }

  /** The tables encode `lines` for a function that starts at line `start`. */
  ghost predicate Encodes(info: seq<int>, abs: seq<Abs>, lines: seq<int>, start: int) {
    && |lines| <= |info|
    && (forall p :: 0 <= p < |lines| ==> Fits(info, abs, lines, start, p))
    && Absolute(info, abs, lines)
  }

  /** Dropping the last instruction, with its absolute entry if it has one. */
  lemma DropAbsolute(info: seq<int>, abs: seq<Abs>, lines: seq<int>, start: int)
    requires Encodes(info, abs, lines, start) && lines != []
    requires info[|lines| - 1] == ABSLINEINFO
    ensures |abs| > 0 && abs[|abs| - 1].pc == |lines| - 1
    ensures Encodes(info, abs[..|abs| - 1], lines[..|lines| - 1], start)
  {
    var last := |lines| - 1;
    assert Fits(info, abs, lines, start, last);
    var i :| 0 <= i < |abs| && abs[i].pc == last;
    assert i == |abs| - 1;
    var rest := abs[..|abs| - 1];
    forall p | 0 <= p < last
      ensures Fits(info, rest, lines[..last], start, p)
    {
      assert Fits(info, abs, lines, start, p);
      if info[p] == ABSLINEINFO {
        var k :| 0 <= k < |abs| && abs[k].pc == p;
        assert rest[k].pc == p;
      }
    }
  }

  lemma DropRelative(info: seq<int>, abs: seq<Abs>, lines: seq<int>, start: int)
    requires Encodes(info, abs, lines, start) && lines != []
    requires info[|lines| - 1] != ABSLINEINFO
    ensures info[|lines| - 1] == lines[|lines| - 1] - Prev(lines[..|lines| - 1], |lines| - 1, start)
    ensures Encodes(info, abs, lines[..|lines| - 1], start)
    ensures Base(abs) < |lines|
  {
    var last := |lines| - 1;
    assert Fits(info, abs, lines, start, last);
    forall p | 0 <= p < last
      ensures Fits(info, abs, lines[..last], start, p)
    {
      assert Fits(info, abs, lines, start, p);
    }
  }

  lemma AddRelative(info: seq<int>, abs: seq<Abs>, lines: seq<int>, start: int, dif: int)
    requires Encodes(info, abs, lines, start)
    requires -LIMLINEDIFF < dif < LIMLINEDIFF && |lines| < Base(abs) + MAXIWTHABS
    ensures Encodes(info[..|lines|] + [dif], abs, lines + [Prev(lines, |lines|, start) + dif], start)
  {
    var more, longer := info[..|lines|] + [dif], lines + [Prev(lines, |lines|, start) + dif];
    forall p | 0 <= p < |longer|
      ensures Fits(more, abs, longer, start, p)
    {
      if p < |lines| {
        assert Fits(info, abs, lines, start, p);
      }
    }
  }

  lemma AddAbsolute(info: seq<int>, abs: seq<Abs>, lines: seq<int>, start: int, line: int)
    requires Encodes(info, abs, lines, start)
    ensures Encodes(info[..|lines|] + [ABSLINEINFO], abs + [Abs(|lines|, line)], lines + [line], start)
  {
    var more, all, longer := info[..|lines|] + [ABSLINEINFO], abs + [Abs(|lines|, line)], lines + [line];
    forall p | 0 <= p < |longer|
      ensures Fits(more, all, longer, start, p)
    {
      if p < |lines| {
        assert Fits(info, abs, lines, start, p);
        if info[p] == ABSLINEINFO {
          var k :| 0 <= k < |abs| && abs[k].pc == p;
          assert all[k].pc == p;
        }
      } else {
        assert all[|abs|].pc == p;
      }
    }
  }

  /** A finished function; `lineinfo` is absent when debug information was stripped. */
  datatype Proto = Proto(linedefined: int, lineinfo: Option<seq<int>>, abslineinfo: seq<Abs>)

  ghost predicate Describes(f: Proto, lines: seq<int>) {
    f.lineinfo.Some? && Encodes(f.lineinfo.value, f.abslineinfo, lines, f.linedefined)
  }

  // ----- The compiler -------------------------------------------------------------------------------

  /** The part of FuncState and Proto that holds line information.  `lines` is what the tables stand
      for: the line last saved for each instruction. */
  class FuncState {
    const linedefined: int
    var pc: nat
    var lineinfo: seq<int>
    var abslineinfo: seq<Abs>
    var previousline: int
    var iwthabs: int
    ghost var lines: seq<int>

    /** Either the counters match the tables, or the next entry is forced to be absolute. */
    ghost predicate Ready()
      reads this
    {
      && Encodes(lineinfo, abslineinfo, lines, linedefined)
      && (|| iwthabs == MAXIWTHABS + 1
          || (previousline == Prev(lines, |lines|, linedefined)
              && iwthabs == |lines| - Base(abslineinfo)))
    }

    /** All instructions have line information and the counters match. */
    ghost predicate Valid()
      reads this
    {
      Ready() && |lines| == pc && iwthabs <= MAXIWTHABS
    }

    constructor (linedefined: int)
      ensures Valid() && lines == [] && this.linedefined == linedefined
    {
      this.linedefined := linedefined;
      pc, lineinfo, abslineinfo := 0, [], [];
      previousline, iwthabs := linedefined, 0;
      lines := [];
    }

    /** savelineinfo, for the instruction at pc - 1. */
    method Save(line: int)
      requires Ready() && pc == |lines| + 1
      modifies this`lineinfo, this`abslineinfo, this`previousline, this`iwthabs, this`lines
      ensures Valid() && lines == old(lines) + [line]
      ensures -0x80 < line - old(previousline) < 0x80 && old(iwthabs) < 128 ==>
                lineinfo[pc - 1] == line - old(previousline) && abslineinfo == old(abslineinfo)
      ensures !(-0x80 < line - old(previousline) < 0x80 && old(iwthabs) < 128) ==>
                lineinfo[pc - 1] == -0x80 && abslineinfo == old(abslineinfo) + [Abs(pc - 1, line)]
    {
      var linedif := line - previousline;
      var absolute := linedif >= LIMLINEDIFF || -linedif >= LIMLINEDIFF;
      if !absolute {
        absolute := iwthabs >= MAXIWTHABS;
        iwthabs := iwthabs + 1;
      }
      Enter(line, linedif, absolute);
      if absolute {
        iwthabs := 1;
      }
    }

    /** The entry itself. */
    method Enter(line: int, linedif: int, absolute: bool)
      requires Encodes(lineinfo, abslineinfo, lines, linedefined) && pc == |lines| + 1
      requires !absolute ==> line == Prev(lines, |lines|, linedefined) + linedif
                             && -LIMLINEDIFF < linedif < LIMLINEDIFF && |lines| < Base(abslineinfo) + MAXIWTHABS
      modifies this`lineinfo, this`abslineinfo, this`previousline, this`lines
      ensures Encodes(lineinfo, abslineinfo, lines, linedefined)
      ensures lines == old(lines) + [line] && previousline == line
      ensures lineinfo == old(lineinfo[..pc - 1]) + [if absolute then ABSLINEINFO else linedif]
      ensures abslineinfo == if absolute then old(abslineinfo) + [Abs(pc - 1, line)] else old(abslineinfo)
    {
      if absolute {
        AddAbsolute(lineinfo, abslineinfo, lines, linedefined, line);
        abslineinfo := abslineinfo + [Abs(pc - 1, line)];
        lineinfo := lineinfo[..pc - 1] + [ABSLINEINFO];
      } else {
        AddRelative(lineinfo, abslineinfo, lines, linedefined, linedif);
        lineinfo := lineinfo[..pc - 1] + [linedif];
      }
      previousline := line;
      lines := lines + [line];
    }

    /** removelastlineinfo. */
    method RemoveLineInfo()
      requires Valid() && pc > 0
      modifies this`abslineinfo, this`previousline, this`iwthabs, this`lines
      ensures Ready() && lines == old(lines[..pc - 1])
    {
      if lineinfo[pc - 1] != ABSLINEINFO {
        DropRelative(lineinfo, abslineinfo, lines, linedefined);
        previousline := previousline - lineinfo[pc - 1];
        iwthabs := iwthabs - 1;
      } else {
        DropAbsolute(lineinfo, abslineinfo, lines, linedefined);
        abslineinfo := abslineinfo[..|abslineinfo| - 1];
        iwthabs := MAXIWTHABS + 1;
      }
      lines := lines[..pc - 1];
    }

    /** luaK_code: emit an instruction at the lexer's last line. */
    method Code(line: int)
      requires Ready() && |lines| == pc
      modifies this
      ensures Valid() && lines == old(lines) + [line] && pc == old(pc) + 1
    {
      pc := pc + 1;
      Save(line);
    }

    /** luaK_fixline: give the last instruction another line. */
    method FixLine(line: int)
      requires Valid() && pc > 0
      modifies this
      ensures pc == old(pc) && Valid() && lines == old(lines[..pc - 1]) + [line]
    {
      RemoveLineInfo();
      Save(line);
    }

    /** removelastinstruction; the compiler always emits another instruction next. */
    method RemoveLastInstruction()
      requires Valid() && pc > 0
      modifies this
      ensures pc == old(pc) - 1 && Ready() && |lines| == pc && lines == old(lines[..pc - 1])
    {
      RemoveLineInfo();
      pc := pc - 1;
    }

    /** close_func: the tables of the finished function, cut to their size. */
    method Close() returns (f: Proto)
      requires Valid()
      ensures Describes(f, lines) && f.linedefined == linedefined
    {
      f := Proto(linedefined, Some(lineinfo[..pc]), abslineinfo);
      forall p | 0 <= p < |lines|
        ensures Fits(f.lineinfo.value, abslineinfo, lines, linedefined, p)
      {
        assert Fits(lineinfo, abslineinfo, lines, linedefined, p);
      }
    }
  }

  // ----- The decoder ----------------------------------------------------------------------------------

  /** The sum of relative entries over (lo, hi]. */
  ghost function Sum(info: seq<int>, lo: int, hi: int): int
    requires -1 <= lo <= hi < |info|
    decreases hi - lo
  {
    if lo == hi then 0 else Sum(info, lo, hi - 1) + info[hi]
  }

  ghost predicate Unmarked(info: seq<int>, lo: int, hi: int)
    requires -1 <= lo <= hi < |info|
  {
    forall p :: lo < p <= hi ==> info[p] != ABSLINEINFO
  }

  /** Adding up relative entries gives the difference of the lines, as long as no mark is passed. */
  lemma {:induction false} SumIsDifference(f: Proto, lines: seq<int>, lo: int, hi: int)
    requires Describes(f, lines) && -1 <= lo <= hi < |lines|
    requires Unmarked(f.lineinfo.value, lo, hi)
    ensures Prev(lines, lo + 1, f.linedefined) + Sum(f.lineinfo.value, lo, hi)
            == Prev(lines, hi + 1, f.linedefined)
    decreases hi - lo
  {
    if lo < hi {
      assert Fits(f.lineinfo.value, f.abslineinfo, lines, f.linedefined, hi);
      SumIsDifference(f, lines, lo, hi - 1);
    }
  }

  /** Between two neighbouring absolute entries, and outside of them all, nothing is marked. */
  lemma UnmarkedAfter(f: Proto, lines: seq<int>, i: int, pc: nat)
    requires Describes(f, lines) && pc < |lines| && -1 <= i < |f.abslineinfo|
    requires i >= 0 ==> f.abslineinfo[i].pc <= pc
    requires i + 1 < |f.abslineinfo| ==> pc < f.abslineinfo[i + 1].pc
    ensures Unmarked(f.lineinfo.value, if i < 0 then -1 else f.abslineinfo[i].pc, pc)
  {
    var abs, start := f.abslineinfo, if i < 0 then -1 else f.abslineinfo[i].pc;
    forall p | start < p <= pc
      ensures f.lineinfo.value[p] != ABSLINEINFO
    {
      assert Fits(f.lineinfo.value, abs, lines, f.linedefined, p);
      if f.lineinfo.value[p] == ABSLINEINFO {
        var k :| 0 <= k < |abs| && abs[k].pc == p;
        assert false;
      }
    }
  }

  /** getbaseline.  The estimate pc / 128 - 1 never overshoots, which is what the assertion in the code
      relies on. */
  method GetBaseLine(f: Proto, pc: nat, ghost lines: seq<int>) returns (basepc: int, line: int)
    requires Describes(f, lines) && pc < |lines|
    ensures -1 <= basepc <= pc && line == Prev(lines, basepc + 1, f.linedefined)
    ensures Unmarked(f.lineinfo.value, basepc, pc)
  {
    var abs := f.abslineinfo;
    if |abs| == 0 || pc < abs[0].pc {
      UnmarkedAfter(f, lines, -1, pc);
      return -1, f.linedefined;
    }
    var i := pc / MAXIWTHABS - 1;
    assert i < 0 || (i < |abs| && abs[i].pc <= pc) by {
      assert pc < MAXIWTHABS * (|abs| + 1);
      assert pc >= MAXIWTHABS * (i + 1);
    }
    while i + 1 < |abs| && pc >= abs[i + 1].pc
      invariant -1 <= i < |abs| && (i >= 0 ==> abs[i].pc <= pc)
    {
      i := i + 1;
    }
    UnmarkedAfter(f, lines, i, pc);
    return abs[i].pc, abs[i].line;
  }

  /** luaG_getfuncline: the line saved for the instruction, -1 without debug information. */
  method GetFuncLine(f: Proto, pc: nat, ghost lines: seq<int>) returns (line: int)
    requires f.lineinfo.Some? ==> Describes(f, lines) && pc < |lines|
    ensures line == if f.lineinfo.Some? then lines[pc] else -1
  {
    if f.lineinfo.None? {
      return -1;
    }
    var basepc;
    basepc, line := GetBaseLine(f, pc, lines);
    ghost var start, first := basepc, line;
    while basepc < pc
      invariant start <= basepc <= pc
      invariant line == first + Sum(f.lineinfo.value, start, basepc)
    {
      basepc := basepc + 1;
      line := line + f.lineinfo.value[basepc];
    }
    SumIsDifference(f, lines, start, pc);
  }

  /** changedline: whether two instructions are on different lines, mostly without decoding either. */
  method ChangedLine(f: Proto, oldpc: nat, newpc: nat, ghost lines: seq<int>) returns (changed: bool)
    requires oldpc < newpc
    requires f.lineinfo.Some? ==> Describes(f, lines) && newpc < |lines|
    ensures changed == (f.lineinfo.Some? && lines[oldpc] != lines[newpc])
  {
    if f.lineinfo.None? {
      return false;
    }
    if newpc - oldpc < MAXIWTHABS / 2 {
      var delta, pc := 0, oldpc;
      while true
        invariant oldpc <= pc < newpc
        invariant Unmarked(f.lineinfo.value, oldpc, pc)
        invariant delta == Sum(f.lineinfo.value, oldpc, pc)
        decreases newpc - pc
      {
        pc := pc + 1;
        var lineinfo := f.lineinfo.value[pc];
        if lineinfo == ABSLINEINFO {
          break;
        }
        delta := delta + lineinfo;
        if pc == newpc {
          SumIsDifference(f, lines, oldpc, newpc);
          return delta != 0;
        }
      }
    }
    var a := GetFuncLine(f, oldpc, lines);
    var b := GetFuncLine(f, newpc, lines);
    return a != b;
  }
}

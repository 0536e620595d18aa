/** The decoder as it runs: a bit reader and a growing dictionary in one object. */
module LzDecoder {
  import opened LzBits
  import opened LzFormat

  /** How many bits of the current symbol were read when the mask stands here. */
  function Spent(mask: nat): (n: nat)
    requires mask in {1, 2, 4, 8, 16, 32}
    ensures n < 6
  {
    if mask == 32 then 0 else if mask == 16 then 1 else if mask == 8 then 2
    else if mask == 4 then 3 else if mask == 2 then 4 else 5
  }

  /** The rest of the symbol at hand and the symbols after it. */
  function UnreadBits(val: nat, mask: nat, tail: string): seq<bool>
    requires mask in {1, 2, 4, 8, 16, 32}
  {
    SymbolBits(val)[Spent(mask)..] + Stream(tail)
  }

  lemma AdvanceInSymbol(val: nat, mask: nat, tail: string)
    requires mask in {2, 4, 8, 16, 32}
    ensures UnreadBits(val, mask, tail) == [MaskSet(val, mask)] + UnreadBits(val, mask / 2, tail)
  {
    assert Spent(mask / 2) == Spent(mask) + 1;
    assert SymbolBits(val)[Spent(mask)] == MaskSet(val, mask);
  }

  lemma AdvanceToNextSymbol(val: nat, tail: string)
    ensures UnreadBits(val, 1, tail) == [MaskSet(val, 1)] + Stream(tail)
    ensures tail != "" ==> Stream(tail) == UnreadBits(BaseValue(tail[0]), 32, tail[1..])
  {}

  lemma {:induction false} ValueOfPrefix(bits: seq<bool>, i: nat)
    requires i < |bits|
    ensures Value(bits[..i + 1]) == Value(bits[..i]) + if bits[i] then Pow2(i) else 0
  {
    assert bits[..i + 1] == bits[..i] + [bits[i]];
    ValueConcat(bits[..i], [bits[i]]);
    assert Value([bits[i]]) == if bits[i] then 1 else 0;
  }

  class DataStruct {
    const input: string
    var val: nat
    var position: nat
    var index: nat
    var dictionary: seq<string>
    var enlargeIn: int
    var numBits: nat

    ghost predicate Valid()
      reads this
    {
      && 1 <= index <= |input|
      && position in {1, 2, 4, 8, 16, 32}
      && numBits >= 2
    }

    /** The bits not read yet. */
    ghost function Unread(): seq<bool>
      requires Valid()
      reads this
    {
      UnreadBits(val, position, input[index..])
    }

    ghost function Table(): Table
      reads this
    {
      LzFormat.Table(dictionary, enlargeIn, numBits)
    }

    constructor (input: string)
      requires input != ""
      ensures Valid() && this.input == input
      ensures Unread() == Stream(input) && Table() == INITIAL
    {
      this.input := input;
      val := BaseValue(input[0]);
      position := 32;
      index := 1;
      dictionary := ["0", "1", "2"];
      enlargeIn := 5;
      numBits := 2;
    }

    /** The bit under the mask; the mask then moves on, and the next symbol is fetched
        as soon as the current one is used up. */
    method NextBit() returns (crashed: bool, respB: bool)
      requires Valid()
      modifies `val, `position, `index
      ensures Valid()
      ensures |old(Unread())| >= 1 && respB == old(Unread())[0]
      ensures crashed <==> |old(Unread())| == 1
      ensures !crashed ==> Unread() == old(Unread())[1..]
    {
      respB := MaskSet(val, position);
      if position == 1 {
        AdvanceToNextSymbol(val, input[index..]);
      } else {
        AdvanceInSymbol(val, position, input[index..]);
      }
      position := position / 2;
      crashed := false;
      if position == 0 {
        position := 32;
        if index == |input| {
          return true, respB;
        }
        assert input[index..][1..] == input[index + 1..];
        val := BaseValue(input[index]);
        index := index + 1;
      }
    }

    /** Reads nb bits, lowest first. A read crashes iff it would leave no bit behind. */
    method ReadBits(nb: nat) returns (crashed: bool, result: nat)
      requires Valid()
      modifies `val, `position, `index
      ensures Valid()
      ensures crashed <==> |old(Unread())| <= nb
      ensures !crashed ==> result == Value(old(Unread())[..nb]) && Unread() == old(Unread())[nb..]
    {
      ghost var bits := Unread();
      result := 0;
      var power := 1;
      for i := 0 to nb
        invariant Valid()
        invariant i < |bits| && Unread() == bits[i..]
        invariant power == Pow2(i) && result == Value(bits[..i])
      {
        var respB;
        crashed, respB := NextBit();
        if crashed {
          return;
        }
        ValueOfPrefix(bits, i);
        if respB {
          result := result + power;
        }
        power := power * 2;
      }
      crashed := false;
    }

    method AppendValue(s: string)
      requires Valid()
      modifies `dictionary, `enlargeIn, `numBits
      ensures Valid() && Unread() == old(Unread())
      ensures Table() == Append(old(Table()), s)
    {
      dictionary := dictionary + [s];
      enlargeIn := enlargeIn - 1;
      if enlargeIn == 0 {
        enlargeIn := Pow2(numBits);
        numBits := numBits + 1;
      }
    }

    /** A literal of 8 or 16 bits joins the dictionary as it is read. */
    method ReadLiteral(size: nat) returns (crashed: bool, s: string)
      requires Valid() && size <= 16
      modifies this
      ensures Valid()
      ensures var p := Literal(size, old(Unread()), old(Table()));
        if p.Overrun? then crashed
        else !crashed && s == p.text && Unread() == p.rest && Table() == p.table
    {
      ghost var bits := Unread();
      var n;
      crashed, n := ReadBits(size);
      s := "";
      if !crashed {
        ValueBound(bits[..size]);
        Pow2AtMost(size, 16);
        s := [RuneOf(n)];
        AppendValue(s);
      }
    }

    /** Reads a code and yields what it names, or the end mark, or a bad code. */
    method GetString(last: string) returns (crashed: bool, s: string, isEnd: bool, bad: bool)
      requires Valid()
      modifies this
      ensures Valid()
      ensures var p := LzFormat.GetString(last, old(Unread()), old(Table()));
        && (crashed <==> p.Overrun?)
        && (!crashed ==> (isEnd <==> p.End?) && (bad <==> p.Bad?))
        && (p.Text? ==> s == p.text && Unread() == p.rest && Table() == p.table)
    {
      var c;
      crashed, c := ReadBits(numBits);
      s, isEnd, bad := "", false, false;
      if crashed {
        return;
      }
      if c == 0 {
        crashed, s := ReadLiteral(8);
      } else if c == 1 {
        crashed, s := ReadLiteral(16);
      } else if c == 2 {
        isEnd := true;
      } else if c < |dictionary| {
        s := dictionary[c];
      } else if c == |dictionary| {
        s := ConcatWithFirstRune(last, last);
      } else {
        bad := true;
      }
    }
  }

  datatype Turn = Finish(outcome: Outcome) | Go(last: string, result: string)

  /** The object and the two texts of the loop stand where this head stands. */
  ghost predicate At(data: DataStruct, last: string, result: string, h: Head)
    reads data
  {
    data.Valid() && h == Head(data.Unread(), data.Table(), last, result)
  }

  /** One turn of the loop: it stops with the outcome of the run, or goes on at the next head. */
  method DecodeTurn(data: DataStruct, last: string, result: string, ghost h: Head) returns (turn: Turn)
    requires At(data, last, result, h)
    modifies data
    ensures turn.Finish? ==> Step(h) == Stop(turn.outcome)
    ensures turn.Go? ==> Step(h).Continue? && At(data, turn.last, turn.result, Step(h).head)
  {
    var crashed, s, isEnd, bad := data.GetString(last);
    if crashed {
      return Finish(Crash);
    }
    if isEnd {
      return Finish(Decoded(result));
    }
    if bad {
      return Finish(BadCode(result));
    }
    data.AppendValue(ConcatWithFirstRune(last, s));
    return Go(s, result + s);
  }

  /** The decode loop, entered after a first piece; its heads are those EveryHead is about. */
  method DecodeLoop(data: DataStruct, first: string, ghost h0: Head, ghost input: string) returns (r: Outcome)
    requires At(data, first, first, h0) && After(input, 1) == Continue(h0)
    modifies data
    ensures h0.table.width > 0 && r == Run(h0)
  {
    var last, result := first, first;
    ghost var h, pieces := h0, 1;
    while true
      invariant pieces > 0 && After(input, pieces) == Continue(h)
      invariant At(data, last, result, h) && h.table.width > 0 && Run(h) == Run(h0)
      decreases |h.bits|
    {
      var turn := DecodeTurn(data, last, result, h);
      match turn
      case Finish(o) =>
        return o;
      case Go(s, sofar) =>
        StepShrinks(h);
        last, result := s, sofar;
        h, pieces := Step(h).head, pieces + 1;
    }
  }

  /** Decoding terminates on every input with the outcome the format gives it. */
  method DecompressFromEncodedUriComponent(input: string) returns (r: Outcome)
    ensures r == Decode(input)
  {
    if input == "" {
      return Crash;
    }
    var data := new DataStruct(input);
    var crashed, result, isEnd, bad := data.GetString("");
    if crashed {
      return Crash;
    }
    if isEnd {
      return Decoded("");
    }
    if bad {
      return BadCode("");
    }
    data.numBits := data.numBits + 1;
    r := DecodeLoop(data, result, First(input).head, input);
  }
}

/** The bit buffer of the random generator: draws of a few bits, taken from
    64-bit outputs. */
module RandomBits {
  function Pow2(n: nat): (r: nat)
    ensures r > 0
  {
    if n == 0 then 1 else 2 * Pow2(n - 1)
  }

  /** The lowest bits of `x`. */
  function Low(x: nat, bits: nat): nat {
    if bits == 0 then 0 else x % 2 + 2 * Low(x / 2, bits - 1)
  }

  /** `x` without its lowest bits. */
  function High(x: nat, bits: nat): nat {
    if bits == 0 then x else High(x / 2, bits - 1)
  }

  /** `x` with as many zero bits below it. */
  function Shifted(x: nat, bits: nat): nat {
    if bits == 0 then x else 2 * Shifted(x, bits - 1)
  }

  lemma {:induction false} ShiftedIs(x: nat, bits: nat)
    ensures Shifted(x, bits) == x * Pow2(bits)
    decreases bits
  {
    if bits > 0 {
      ShiftedIs(x, bits - 1);
    }
  }

  /** Any number is what is above its lowest bits, and these. */
  lemma {:induction false} LowAndHigh(x: nat, bits: nat)
    ensures Low(x, bits) < Pow2(bits) && x == Pow2(bits) * High(x, bits) + Low(x, bits)
    decreases bits
  {
    if bits > 0 {
      LowAndHigh(x / 2, bits - 1);
      var p, h := Pow2(bits - 1), High(x / 2, bits - 1);
      assert 2 * (p * h) == (2 * p) * h;
    }
  }

  lemma {:induction false} Pow2Plus(a: nat, b: nat)
    ensures Pow2(a + b) == Pow2(a) * Pow2(b)
    decreases b
  {
    if b > 0 {
      Pow2Plus(a, b - 1);
    }
  }

  lemma {:induction false} Pow2Grows(a: nat, b: nat)
    requires a <= b
    ensures Pow2(a) <= Pow2(b)
    decreases b - a
  {
    if a < b {
      Pow2Grows(a, b - 1);
    }
  }

  lemma Pow2Monotone(a: nat, b: nat)
    ensures Pow2(a) > Pow2(b) ==> a > b
  {
    if a <= b {
      Pow2Grows(a, b);
    }
  }

  /** What one call answered: a number of so many bits. */
  datatype Draw = Draw(value: nat, bits: nat)

  /** The outputs, of `width` bits, one after another, the first in the lowest
      bits. */
  ghost function Stream(words: seq<nat>, width: nat): nat {
    if words == [] then 0
    else Stream(words[..|words| - 1], width) + Shifted(words[|words| - 1], Length(|words| - 1, width))
  }

  /** How many bits there are in so many outputs. */
  ghost function Length(words: nat, width: nat): nat {
    if words == 0 then 0 else Length(words - 1, width) + width
  }

  ghost function Taken(draws: seq<Draw>): nat {
    if draws == [] then 0 else Taken(draws[..|draws| - 1]) + draws[|draws| - 1].bits
  }

  /** The draws one after another, the first in the lowest bits. */
  ghost function Joined(draws: seq<Draw>): nat {
    if draws == [] then 0
    else Joined(draws[..|draws| - 1]) + Shifted(draws[|draws| - 1].value, Taken(draws[..|draws| - 1]))
  }

  lemma StreamMore(words: seq<nat>, width: nat, w: nat)
    ensures Stream(words + [w], width) == Stream(words, width) + Shifted(w, Length(|words|, width))
    ensures Length(|words + [w]|, width) == Length(|words|, width) + width
  {
    assert (words + [w])[..|words|] == words;
  }

  lemma JoinedMore(draws: seq<Draw>, d: Draw)
    ensures Taken(draws + [d]) == Taken(draws) + d.bits
    ensures Joined(draws + [d]) == Joined(draws) + Shifted(d.value, Taken(draws))
  {
    assert (draws + [d])[..|draws|] == draws;
  }

  lemma Distribute(a: int, b: int, c: int)
    ensures a * (b + c) == a * b + a * c
  {
  }

  lemma ProductGrows(a: nat, b: int, c: int)
    ensures b <= c ==> a * b <= a * c
  {
  }

  lemma QuotientIs(x: nat, d: nat, h: nat, r: nat, h': nat, r': nat)
    requires d > 0 && r < d && x == d * h + r && r' < d && x == d * h' + r'
    ensures h == h' && r == r'
  {
    ProductGrows(d, h' + 1, h);
    ProductGrows(d, h + 1, h');
    Distribute(d, h', 1);
    Distribute(d, h, 1);
  }

  /** What is above and below a cut in a number that was put together there. */
  lemma Unstacked(high: nat, low: nat, bits: nat)
    requires low < Pow2(bits)
    ensures High(Shifted(high, bits) + low, bits) == high && Low(Shifted(high, bits) + low, bits) == low
  {
    var x := Shifted(high, bits) + low;
    ShiftedIs(high, bits);
    LowAndHigh(x, bits);
    QuotientIs(x, Pow2(bits), high, low, High(x, bits), Low(x, bits));
  }

  lemma HighBelow(x: nat, total: nat, bits: nat)
    requires x < Pow2(total) && bits <= total
    ensures High(x, bits) < Pow2(total - bits)
  {
    Pow2Plus(bits, total - bits);
    LowAndHigh(x, bits);
    ProductGrows(Pow2(bits), Pow2(total - bits), High(x, bits));
  }

  lemma {:induction false} ShiftedTwice(x: nat, a: nat, b: nat)
    ensures Shifted(Shifted(x, a), b) == Shifted(x, a + b)
    decreases b
  {
    if b > 0 {
      ShiftedTwice(x, a, b - 1);
    }
  }

  lemma {:induction false} ShiftedSum(x: nat, y: nat, bits: nat)
    ensures Shifted(x + y, bits) == Shifted(x, bits) + Shifted(y, bits)
    decreases bits
  {
    if bits > 0 {
      ShiftedSum(x, y, bits - 1);
    }
  }

  lemma PutTogether(x: nat, bits: nat)
    ensures x == Shifted(High(x, bits), bits) + Low(x, bits) && Low(x, bits) < Pow2(bits)
  {
    LowAndHigh(x, bits);
    ShiftedIs(High(x, bits), bits);
  }

  /** Taking the lowest bits off what is left. */
  lemma TakeBits(taken: nat, left: nat, bits: nat)
    ensures Shifted(left, taken) == Shifted(Low(left, bits), taken) + Shifted(High(left, bits), taken + bits)
    ensures Low(left, bits) < Pow2(bits)
  {
    PutTogether(left, bits);
    ShiftedSum(Shifted(High(left, bits), bits), Low(left, bits), taken);
    ShiftedTwice(High(left, bits), bits, taken);
  }

  lemma StackBelow(high: nat, low: nat, a: nat, b: nat)
    requires low < Pow2(a) && high < Pow2(b)
    ensures Shifted(high, a) + low < Pow2(a + b)
  {
    ShiftedIs(high, a);
    Pow2Plus(a, b);
    JoinBelow(Pow2(a), Pow2(b), low, high);
  }

  lemma JoinBelow(p: nat, q: nat, low: nat, value: nat)
    requires low < p && value < q
    ensures low + value * p < p * q
  {
    ProductGrows(p, value + 1, q);
    Distribute(p, value, 1);
  }

  /** What is above the lowest bits of a buffer with an output on top of it. */
  lemma TopUp(buf: nat, size: nat, gen: nat, bits: nat)
    requires buf < Pow2(size) && size <= bits
    ensures High(Shifted(gen, size) + buf, bits) == High(gen, bits - size)
  {
    var b := bits - size;
    PutTogether(gen, b);
    ShiftedSum(Shifted(High(gen, b), b), Low(gen, b), size);
    ShiftedTwice(High(gen, b), b, size);
    StackBelow(Low(gen, b), buf, size, b);
    Unstacked(High(gen, b), Shifted(Low(gen, b), size) + buf, bits);
  }

  lemma StackUp(taken: nat, size: nat, gen: nat, buf: nat)
    ensures Shifted(Shifted(gen, size) + buf, taken) == Shifted(buf, taken) + Shifted(gen, taken + size)
  {
    ShiftedSum(Shifted(gen, size), buf, taken);
    ShiftedTwice(gen, size, taken);
  }

  /** The outputs that fed the buffer are the draws, and what is left in it. */
  ghost predicate NothingLost(width: nat, fed: seq<nat>, draws: seq<Draw>, bitbuf: nat, size: nat) {
    && bitbuf < Pow2(size) && size < width
    && Taken(draws) + size == Length(|fed|, width)
    && Stream(fed, width) == Joined(draws) + Shifted(bitbuf, Taken(draws))
    && Small(draws)
  }

  ghost predicate Small(draws: seq<Draw>) {
    forall i :: 0 <= i < |draws| ==> draws[i].value < Pow2(draws[i].bits)
  }

  lemma StillSmall(draws: seq<Draw>, value: nat, bits: nat)
    requires Small(draws) && value < Pow2(bits)
    ensures Small(draws + [Draw(value, bits)])
  {
  }

  /** One draw, `value`, after which `left` is left in the buffer. */
  lemma DrawOne(width: nat, fed: seq<nat>, draws: seq<Draw>, before: nat, size: nat, value: nat, bits: nat, left: nat)
    requires Taken(draws) + size == Length(|fed|, width) && bits <= size && size - bits < width
    requires Stream(fed, width) == Joined(draws) + before && Small(draws)
    requires before == Shifted(value, Taken(draws)) + Shifted(left, Taken(draws) + bits)
    requires value < Pow2(bits) && left < Pow2(size - bits)
    ensures NothingLost(width, fed, draws + [Draw(value, bits)], left, size - bits)
  {
    JoinedMore(draws, Draw(value, bits));
    StillSmall(draws, value, bits);
  }

  lemma DrawFromBuffer(width: nat, fed: seq<nat>, draws: seq<Draw>, bitbuf: nat, size: nat, bits: nat)
    requires NothingLost(width, fed, draws, bitbuf, size) && bits <= size
    ensures NothingLost(width, fed, draws + [Draw(Low(bitbuf, bits), bits)], High(bitbuf, bits), size - bits)
  {
    HighBelow(bitbuf, size, bits);
    TakeBits(Taken(draws), bitbuf, bits);
    DrawOne(width, fed, draws, Shifted(bitbuf, Taken(draws)), size, Low(bitbuf, bits), bits, High(bitbuf, bits));
  }

  lemma DrawWithOutput(width: nat, fed: seq<nat>, draws: seq<Draw>, bitbuf: nat, size: nat, bits: nat, gen: nat)
    requires NothingLost(width, fed, draws, bitbuf, size) && size < bits < width && gen < Pow2(width)
    ensures NothingLost(width, fed + [gen], draws + [Draw(Low(Shifted(gen, size) + bitbuf, bits), bits)],
                        High(gen, bits - size), size + width - bits)
  {
    var full, taken := Shifted(gen, size) + bitbuf, Taken(draws);
    StreamMore(fed, width, gen);
    HighBelow(gen, width, bits - size);
    TopUp(bitbuf, size, gen, bits);
    TakeBits(taken, full, bits);
    StackUp(taken, size, gen, bitbuf);
    DrawOne(width, fed + [gen], draws, Shifted(full, taken), size + width, Low(full, bits), bits, High(full, bits));
  }

  lemma {:induction false} JoinedBelow(draws: seq<Draw>)
    requires Small(draws)
    ensures Joined(draws) < Pow2(Taken(draws))
    decreases |draws|
  {
    if draws != [] {
      var rest, d := draws[..|draws| - 1], draws[|draws| - 1];
      JoinedBelow(rest);
      StackBelow(d.value, Joined(rest), Taken(rest), d.bits);
    }
  }

  /** Each draw is the bits of the stream that come after those of the draws
      before it. */
  lemma {:induction false} DrawIsBits(width: nat, fed: seq<nat>, draws: seq<Draw>, rest: nat, i: nat)
    requires Stream(fed, width) == Joined(draws) + Shifted(rest, Taken(draws)) && i < |draws| && Small(draws)
    ensures Low(High(Stream(fed, width), Taken(draws[..i])), draws[i].bits) == draws[i].value
    decreases |draws|
  {
    var n := |draws| - 1;
    var before, d := draws[..n], draws[n];
    assert draws == before + [d];
    JoinedMore(before, d);
    StackUp(Taken(before), d.bits, rest, d.value);
    var more := Shifted(rest, d.bits) + d.value;
    if i < n {
      DrawIsBits(width, fed, before, more, i);
      assert draws[..i] == before[..i];
    } else {
      JoinedBelow(before);
      Unstacked(more, Joined(before), Taken(before));
      Unstacked(rest, d.value, d.bits);
      assert draws[..i] == before;
    }
  }

  /** The number of bits that it takes to write `n`. */
  function BitLength(n: nat): (b: nat)
    ensures n < Pow2(b) && (b > 0 ==> Pow2(b - 1) <= n)
  {
    if n == 0 then 0 else
      var b := BitLength(n / 2) + 1;
      assert n < 2 * Pow2(b - 1);
      b
  }

  /** What was drawn after `before` was not below `upper`. */
  ghost predicate NoneBelow(before: seq<Draw>, after: seq<Draw>, bits: nat, upper: nat) {
    before <= after && forall i :: |before| <= i < |after| ==> after[i].bits == bits && after[i].value >= upper
  }

  /** The last draw is the first after `before` that is below `upper`. */
  ghost predicate FirstBelow(before: seq<Draw>, after: seq<Draw>, bits: nat, upper: nat, r: nat) {
    && after != [] && after[|after| - 1] == Draw(r, bits) && r < upper
    && NoneBelow(before, after[..|after| - 1], bits, upper)
  }

  lemma OneMoreDraw(before: seq<Draw>, draws: seq<Draw>, bits: nat, upper: nat, r: nat)
    requires NoneBelow(before, draws, bits, upper)
    ensures if r < upper then FirstBelow(before, draws + [Draw(r, bits)], bits, upper, r)
            else NoneBelow(before, draws + [Draw(r, bits)], bits, upper)
  {
    assert (draws + [Draw(r, bits)])[..|draws|] == draws;
  }

  // --- what will be drawn ---

  /** What a generator goes on from. */
  datatype Source = Source(next: nat, buf: nat, size: nat)

  ghost function Drawn(outputs: nat -> nat, width: nat, s: Source, bits: nat): nat {
    if bits == width then outputs(s.next)
    else if bits <= s.size then Low(s.buf, bits)
    else Low(Shifted(outputs(s.next), s.size) + s.buf, bits)
  }

  ghost function After(outputs: nat -> nat, width: nat, s: Source, bits: nat): Source {
    if bits == width then s.(next := s.next + 1)
    else if bits <= s.size then Source(s.next, High(s.buf, bits), s.size - bits)
    else Source(s.next + 1, High(outputs(s.next), bits - s.size),
                if s.size + width > bits then s.size + width - bits else 0)
  }

  /** After `n` draws of so many bits. */
  ghost function AfterMany(outputs: nat -> nat, width: nat, s: Source, bits: nat, n: nat): Source {
    if n == 0 then s else After(outputs, width, AfterMany(outputs, width, s, bits, n - 1), bits)
  }

  /** After `n` draws, the next is below `upper`. */
  ghost predicate BelowAt(outputs: nat -> nat, width: nat, s: Source, bits: nat, upper: nat, n: nat) {
    Drawn(outputs, width, AfterMany(outputs, width, s, bits, n), bits) < upper
  }

  /** Some later draw of so many bits is below `upper`. */
  ghost predicate ComesBelow(outputs: nat -> nat, width: nat, s: Source, bits: nat, upper: nat) {
    exists n: nat :: BelowAt(outputs, width, s, bits, upper, n)
  }

  /** The generator: `outputs` are the numbers that the seed gives, of 64 bits.
      What follows holds of any width. */
  class InsecureRandomContext {
    const width: nat
    const outputs: nat -> nat
    var next: nat
    var bitbuf: nat
    var bitbufSize: nat
    ghost var fed: seq<nat>
    ghost var draws: seq<Draw>

    ghost predicate Valid()
      reads this
    {
      NothingLost(width, fed, draws, bitbuf, bitbufSize) && forall i :: outputs(i) < Pow2(width)
    }

    ghost function State(): Source
      reads this
    {
      Source(next, bitbuf, bitbufSize)
    }

    constructor (outputs: nat -> nat)
      requires forall i :: outputs(i) < Pow2(64)
      ensures Valid() && width == 64 && fed == [] && draws == [] && this.outputs == outputs
    {
      width := 64;
      this.outputs, next, bitbuf, bitbufSize := outputs, 0, 0, 0;
      fed, draws := [], [];
    }

    method Rand64() returns (r: nat)
      requires Valid()
      modifies `next
      ensures Valid() && r == outputs(old(next)) && r < Pow2(width) && next == old(next) + 1
    {
      r := outputs(next);
      next := next + 1;
    }

    /** A number of `bits` bits, from the buffer first. */
    method RandBits(bits: nat) returns (r: nat)
      requires Valid() && bits <= width
      modifies this
      ensures Valid() && r < Pow2(bits)
      ensures if bits < width then draws == old(draws) + [Draw(r, bits)]
              else draws == old(draws) && r == outputs(old(next))
      ensures if old(bitbufSize) < bits < width then fed == old(fed) + [outputs(old(next))] else fed == old(fed)
      ensures next == old(next) + if bits == width || old(bitbufSize) < bits then 1 else 0
      ensures r == Drawn(outputs, width, old(State()), bits) && State() == After(outputs, width, old(State()), bits)
    {
      if bits == width {
        r := Rand64();
      } else if bits <= bitbufSize {
        r := FromBuffer(bits);
      } else {
        var gen := Rand64();
        r := WithOutput(bits, gen);
      }
    }

    method Keep(buf: nat, size: nat, ghost fed': seq<nat>, ghost draws': seq<Draw>)
      modifies `bitbuf, `bitbufSize, `fed, `draws
      ensures bitbuf == buf && bitbufSize == size && fed == fed' && draws == draws'
    {
      bitbuf, bitbufSize := buf, size;
      fed, draws := fed', draws';
    }

    method FromBuffer(bits: nat) returns (r: nat)
      requires NothingLost(width, fed, draws, bitbuf, bitbufSize) && bits <= bitbufSize
      modifies `bitbuf, `bitbufSize, `fed, `draws
      ensures NothingLost(width, fed, draws, bitbuf, bitbufSize) && r < Pow2(bits)
      ensures draws == old(draws) + [Draw(r, bits)] && fed == old(fed) && r == Low(old(bitbuf), bits)
      ensures bitbuf == High(old(bitbuf), bits) && bitbufSize == old(bitbufSize) - bits
    {
      DrawFromBuffer(width, fed, draws, bitbuf, bitbufSize, bits);
      r := Low(bitbuf, bits);
      Keep(High(bitbuf, bits), bitbufSize - bits, fed, draws + [Draw(r, bits)]);
    }

    method WithOutput(bits: nat, gen: nat) returns (r: nat)
      requires NothingLost(width, fed, draws, bitbuf, bitbufSize) && bitbufSize < bits < width && gen < Pow2(width)
      modifies `bitbuf, `bitbufSize, `fed, `draws
      ensures NothingLost(width, fed, draws, bitbuf, bitbufSize) && r < Pow2(bits)
      ensures draws == old(draws) + [Draw(r, bits)] && fed == old(fed) + [gen]
      ensures r == Low(Shifted(gen, old(bitbufSize)) + old(bitbuf), bits)
      ensures bitbuf == High(gen, bits - old(bitbufSize)) && bitbufSize == old(bitbufSize) + width - bits
    {
      DrawWithOutput(width, fed, draws, bitbuf, bitbufSize, bits, gen);
      r := Low(Shifted(gen, bitbufSize) + bitbuf, bits);
      Keep(High(gen, bits - bitbufSize), bitbufSize + width - bits, fed + [gen], draws + [Draw(r, bits)]);
    }

    /** A number below `upper`, by rejection: the first of the draws of so many
        bits that is. It is found exactly where there is one. */
    method RandRange(upper: nat) returns (r: nat)
      requires Valid() && 0 < upper <= Pow2(width)
      requires ComesBelow(outputs, width, State(), BitLength(upper - 1), upper)
      modifies this
      ensures Valid() && r < upper
      ensures BitLength(upper - 1) < width ==> FirstBelow(old(draws), draws, BitLength(upper - 1), upper, r)
    {
      var maxval := upper - 1;
      var bits := BitLength(maxval);
      FewBits(maxval, width);
      r := FirstDraw(maxval, bits);
    }

    /** The first of the draws of so many bits that is at most `maxval`. */
    method FirstDraw(maxval: nat, bits: nat) returns (r: nat)
      requires Valid() && bits <= width && ComesBelow(outputs, width, State(), bits, maxval + 1)
      modifies this
      ensures Valid() && r <= maxval
      ensures bits < width ==> FirstBelow(old(draws), draws, bits, maxval + 1, r)
    {
      ghost var s, i, before, upper := State(), 0, draws, maxval + 1;
      ghost var last: nat :| BelowAt(outputs, width, s, bits, upper, last);
      while true
        invariant i <= last && Rejecting(before, s, bits, upper, i)
        decreases last - i
      {
        var ret := RandNext(bits, s, i, upper, before);
        if ret <= maxval {
          return ret;
        }
        i := i + 1;
      }
    }

    /** `n` draws of so many bits came to nothing. */
    ghost predicate Rejecting(before: seq<Draw>, s: Source, bits: nat, upper: nat, n: nat)
      reads this
    {
      && Valid() && State() == AfterMany(outputs, width, s, bits, n)
      && (bits < width ==> NoneBelow(before, draws, bits, upper))
    }

    /** The next of many draws of so many bits. */
    method RandNext(bits: nat, ghost s: Source, ghost n: nat, ghost upper: nat, ghost before: seq<Draw>)
      returns (r: nat)
      requires bits <= width && Rejecting(before, s, bits, upper, n)
      modifies this
      ensures r < upper <==> BelowAt(outputs, width, s, bits, upper, n)
      ensures r < upper ==> Valid() && (bits < width ==> FirstBelow(before, draws, bits, upper, r))
      ensures r >= upper ==> Rejecting(before, s, bits, upper, n + 1)
    {
      ghost var was := draws;
      r := RandBits(bits);
      if bits < width {
        OneMoreDraw(before, was, bits, upper, r);
      }
    }
  }

  lemma FewBits(n: nat, b: nat)
    requires n < Pow2(b)
    ensures BitLength(n) <= b
  {
    var length := BitLength(n);
    if length > 0 {
      Pow2Monotone(b, length - 1);
    }
  }
}

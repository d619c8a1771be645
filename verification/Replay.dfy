/**
 * The 2048-bit authenticated sequence window: 32 machine words shifted in place,
 * and the plain set of committed sequences it stands for.
 */
module Replay {
  import opened Basics
  import opened Words

  const WINDOW_SIZE: nat := 2048
  const WORD_COUNT: nat := 32

  type Bitmap = s: seq<uint64> | |s| == 32 witness seq(32, i => 0)

  datatype Window = Window(highest: uint64, bitmap: Bitmap, generation: uint64)
  datatype Token = Token(sequence: uint64, generation: uint64)

  const NO_BITS: Bitmap :=
    [0, 0, 0, 0, 0, 0, 0, 0, 0, 0, 0, 0, 0, 0, 0, 0, 0, 0, 0, 0, 0, 0, 0, 0, 0, 0, 0, 0, 0, 0, 0, 0]
  const EMPTY: Window := Window(0, NO_BITS, 0)

  /* ---------- bits of the bitmap ---------- */

  predicate Marked(bitmap: Bitmap, distance: nat)
    requires distance < WINDOW_SIZE
  {
    And(bitmap[distance / 64], Shl(1, distance % 64)) != 0
  }

  function WithBit(bitmap: Bitmap, distance: nat): Bitmap
    requires distance < WINDOW_SIZE
  {
    bitmap[distance / 64 := Or(bitmap[distance / 64], Shl(1, distance % 64))]
  }

  /** Word dst of the bitmap shifted left by shift < 2048 bits. */
  function ShiftedWord(bitmap: Bitmap, shift: nat, dst: nat): uint64
    requires dst < WORD_COUNT
  {
    var src := dst - shift / 64;
    var bits := shift % 64;
    if src < 0 then 0
    else if bits != 0 && src > 0 then Or(Shl(bitmap[src], bits), Shr(bitmap[src - 1], 64 - bits))
    else Shl(bitmap[src], bits)
  }

  function Advanced(bitmap: Bitmap, shift: nat): Bitmap {
    if shift >= WINDOW_SIZE then seq(32, i => 0)
    else seq(32, dst requires 0 <= dst < 32 => ShiftedWord(bitmap, shift, dst))
  }

  lemma MarkedIsBit(bitmap: Bitmap, d: nat)
    requires d < WINDOW_SIZE
    ensures Marked(bitmap, d) <==> Bit(bitmap[d / 64], d % 64)
  {
    MaskTestsBit(bitmap[d / 64], d % 64);
  }

  /** Setting one distance changes that distance and no other. */
  lemma WithBitMarks(bitmap: Bitmap, at: nat, d: nat)
    requires at < WINDOW_SIZE && d < WINDOW_SIZE
    ensures Marked(WithBit(bitmap, at), d) <==> d == at || Marked(bitmap, d)
  {
    MarkedIsBit(bitmap, d); MarkedIsBit(WithBit(bitmap, at), d);
    if d / 64 == at / 64 { MaskSetsBit(bitmap[d / 64], at % 64, d % 64); }
  }

  lemma ShiftedWordBit(bitmap: Bitmap, shift: nat, dst: nat, i: nat)
    requires shift < WINDOW_SIZE && dst < WORD_COUNT && i < 64
    ensures Bit(ShiftedWord(bitmap, shift, dst), i) <==>
            shift <= 64 * dst + i && Marked(bitmap, 64 * dst + i - shift)
  {
    var src := dst - shift / 64;
    var bits := shift % 64;
    var from := 64 * src + i - bits;
    assert from == 64 * dst + i - shift;
    if src < 0 {
      BitZero(i);
    } else {
      BitShl(bitmap[src], bits, i);
      if bits <= i {
        MarkedIsBit(bitmap, from);
        assert from / 64 == src && from % 64 == i - bits;
      }
      if bits != 0 && src > 0 {
        BitOr(Shl(bitmap[src], bits), Shr(bitmap[src - 1], 64 - bits), i);
        BitShr(bitmap[src - 1], 64 - bits, i);
        if i < bits {
          MarkedIsBit(bitmap, from);
          assert from / 64 == src - 1 && from % 64 == i + 64 - bits;
        }
      }
    }
  }

  /** For every shift amount, advancing is the exact truncating shift of the 2048 bits. */
  lemma AdvancedShifts(bitmap: Bitmap, shift: nat, d: nat)
    requires d < WINDOW_SIZE
    ensures Marked(Advanced(bitmap, shift), d) <==> shift <= d && Marked(bitmap, d - shift)
  {
    MarkedIsBit(Advanced(bitmap, shift), d);
    if shift >= WINDOW_SIZE { BitZero(d % 64); }
    else { ShiftedWordBit(bitmap, shift, d / 64, d % 64); }
  }

  /* ---------- in-place operations on caller-owned storage ---------- */

  method SetBit(bitmap: array<uint64>, distance: nat)
    requires bitmap.Length == WORD_COUNT && distance < WINDOW_SIZE
    modifies bitmap
    ensures bitmap[..] == WithBit(old(bitmap[..]), distance)
  {
    bitmap[distance / 64] := Or(bitmap[distance / 64], Shl(1, distance % 64));
  }

  method Advance(bitmap: array<uint64>, shift: nat)
    requires bitmap.Length == WORD_COUNT
    modifies bitmap
    ensures bitmap[..] == Advanced(old(bitmap[..]), shift)
  {
    if shift >= WINDOW_SIZE {
      forall i | 0 <= i < bitmap.Length { bitmap[i] := 0; }
      return;
    }
    var wordShift, bitShift := shift / 64, shift % 64;
    ghost var was: Bitmap := bitmap[..];
    var dst := WORD_COUNT - 1;
    while dst >= 0
      invariant -1 <= dst < WORD_COUNT
      invariant forall j :: 0 <= j <= dst ==> bitmap[j] == was[j]
      invariant forall j :: dst < j < WORD_COUNT ==> bitmap[j] == ShiftedWord(was, shift, j)
    {
      var src := dst - wordShift;
      var value := 0;
      if src >= 0 {
        value := Shl(bitmap[src], bitShift);
        if bitShift != 0 && src > 0 {
          value := Or(value, Shr(bitmap[src - 1], 64 - bitShift));
        }
      }
      bitmap[dst] := value;
      dst := dst - 1;
    }
  }

  /* ---------- check and commit ---------- */

  function Check(w: Window, sequence: uint64): Result<Token> {
    if sequence == 0 then Err(ReplayZero)
    else if sequence <= w.highest && w.highest - sequence >= WINDOW_SIZE then Err(ReplayTooOld)
    else if sequence <= w.highest && Marked(w.bitmap, w.highest - sequence) then Err(ReplayDuplicate)
    else Ok(Token(sequence, w.generation))
  }

  function Commit(w: Window, token: Token): Result<Window> {
    var sequence := token.sequence;
    if sequence == 0 || token.generation != w.generation then Err(ReplayStale)
    else if sequence <= w.highest then
      var distance := w.highest - sequence;
      if distance >= WINDOW_SIZE || Marked(w.bitmap, distance) then Err(ReplayStale)
      else Ok(Window(w.highest, WithBit(w.bitmap, distance), Inc(w.generation)))
    else
      Ok(Window(sequence, WithBit(Advanced(w.bitmap, sequence - w.highest), 0), Inc(w.generation)))
  }

  /** Session-owned window storage; copying one is copying its value. */
  class ReplayWindow {
    var highest: uint64
    const bitmap: array<uint64>
    var generation: uint64

    ghost predicate Valid() { bitmap.Length == WORD_COUNT }

    function Value(): Window
      requires Valid()
      reads this, bitmap
    {
      Window(highest, bitmap[..], generation)
    }

    constructor (w: Window)
      ensures Valid() && fresh(bitmap) && Value() == w
    {
      highest, generation := w.highest, w.generation;
      bitmap := new uint64[WORD_COUNT](i requires 0 <= i < |w.bitmap| => w.bitmap[i]);
      new;
      assert bitmap[..] == w.bitmap;
    }

    /** A rejected commit leaves the window as it was. */
    method CommitToken(token: Token) returns (r: Result<()>)
      requires Valid()
      modifies this, bitmap
      ensures r.Ok? <==> Commit(old(Value()), token).Ok?
      ensures r.Ok? ==> Commit(old(Value()), token) == Ok(Value())
      ensures r.Err? ==> r.error == ReplayStale && Value() == old(Value())
    {
      if token.sequence == 0 || token.generation != generation { return Err(ReplayStale); }
      if token.sequence <= highest {
        var distance := highest - token.sequence;
        if distance >= WINDOW_SIZE || Marked(bitmap[..], distance) { return Err(ReplayStale); }
        SetBit(bitmap, distance);
      } else {
        Advance(bitmap, token.sequence - highest);
        highest := token.sequence;
        SetBit(bitmap, 0);
      }
      generation := Inc(generation);
      return Ok(());
    }
  }

  /* ---------- refinement of a plain set ---------- */

  /** The distances whose bit is set. */
  ghost function Bits(bitmap: Bitmap): set<nat> {
    set d: nat | d < WINDOW_SIZE && Marked(bitmap, d)
  }

  /** bits are the distances behind highest of the committed sequences still in reach. */
  ghost predicate Reflects(bits: set<nat>, highest: nat, committed: set<nat>) {
    forall d :: d in bits <==> 0 <= d < WINDOW_SIZE && d < highest && highest - d in committed
  }

  ghost predicate Bounded(highest: nat, committed: set<nat>) {
    && (forall c :: c in committed ==> 0 < c <= highest)
    && (highest > 0 ==> highest in committed)
  }

  /** w records exactly the committed sequences, as far back as its 2048 bits reach. */
  ghost predicate Tracks(w: Window, committed: set<nat>) {
    && Bounded(w.highest, committed)
    && Reflects(Bits(w.bitmap), w.highest, committed)
    && w.generation == |committed|
  }

  lemma EmptyTracks()
    ensures Tracks(EMPTY, {})
  {
    forall d: nat | d < WINDOW_SIZE ensures !Marked(EMPTY.bitmap, d) {
      MarkedIsBit(EMPTY.bitmap, d); BitZero(d % 64);
    }
    assert Bits(EMPTY.bitmap) == {};
  }

  lemma BitsWithBit(bitmap: Bitmap, at: nat)
    requires at < WINDOW_SIZE
    ensures Bits(WithBit(bitmap, at)) == Bits(bitmap) + {at}
  {
    forall d: nat | d < WINDOW_SIZE { WithBitMarks(bitmap, at, d); }
  }

  lemma BitsMoved(bitmap: Bitmap, shift: nat)
    requires shift > 0
    ensures forall d :: d in Bits(WithBit(Advanced(bitmap, shift), 0)) <==>
                        d == 0 || (shift <= d < WINDOW_SIZE && d - shift in Bits(bitmap))
  {
    var moved := Advanced(bitmap, shift);
    BitsWithBit(moved, 0);
    var bits := Bits(WithBit(moved, 0));
    forall d ensures d in bits <==> d == 0 || (shift <= d < WINDOW_SIZE && d - shift in Bits(bitmap)) {
      if 0 <= d < WINDOW_SIZE { AdvancedShifts(bitmap, shift, d); assert d in Bits(moved) <==> Marked(moved, d); }
    }
  }

  /** Check accepts exactly the fresh sequences that are ahead of the window or still inside it. */
  lemma CheckExact(w: Window, committed: set<nat>, s: uint64)
    requires Tracks(w, committed)
    ensures Check(w, s).Ok? <==> s != 0 && s !in committed && (s > w.highest || w.highest - s < WINDOW_SIZE)
    ensures s in committed ==> Check(w, s) in {Err(ReplayDuplicate), Err(ReplayTooOld)}
  {
    if 0 < s <= w.highest && w.highest - s < WINDOW_SIZE {
      assert w.highest - s in Bits(w.bitmap) <==> s in committed;
    }
  }

  lemma BoundedSetSize(committed: set<nat>, bound: nat)
    requires forall c <- committed :: 0 < c <= bound
    ensures |committed| <= bound
    decreases bound
  {
    if committed != {} {
      var rest := committed - {bound};
      assert bound > 0 by { var c :| c in committed; }
      BoundedSetSize(rest, bound - 1);
      assert |committed| <= |rest| + 1 by { assert committed <= rest + {bound}; SubsetSize(committed, rest + {bound}); }
    }
  }

  lemma SubsetSize<T>(a: set<T>, b: set<T>)
    requires a <= b
    ensures |a| <= |b|
  {
    assert b == a + (b - a);
  }

  /**
   * A commit adds exactly its own fresh sequence to the tracked set. The generation counts
   * commits, and since each nonzero uint64 commits at most once it never wraps.
   */
  lemma CommitTracks(w: Window, committed: set<nat>, token: Token)
    requires Tracks(w, committed)
    ensures Commit(w, token).Ok? <==>
            token.generation == w.generation && Check(w, token.sequence).Ok?
    ensures Commit(w, token).Ok? ==>
              var w' := Commit(w, token).value;
              && token.sequence !in committed
              && Tracks(w', committed + {token.sequence})
              && w'.generation == w.generation + 1
              && w'.highest >= w.highest
  {
    var s := token.sequence;
    CheckExact(w, committed, s);
    if Commit(w, token).Ok? {
      BoundedSetSize(committed + {s}, MAX_UINT64);
      if s <= w.highest { InsideReflects(w.bitmap, w.highest, committed, s); }
      else { AheadReflects(w.bitmap, w.highest, committed, s); }
    }
  }

  lemma InsideReflects(bitmap: Bitmap, highest: nat, committed: set<nat>, s: nat)
    requires Reflects(Bits(bitmap), highest, committed)
    requires 0 < s <= highest < s + WINDOW_SIZE
    ensures Reflects(Bits(WithBit(bitmap, highest - s)), highest, committed + {s})
  {
    BitsWithBit(bitmap, highest - s);
  }

  lemma AheadReflects(bitmap: Bitmap, highest: nat, committed: set<nat>, s: nat)
    requires Reflects(Bits(bitmap), highest, committed) && Bounded(highest, committed)
    requires highest < s
    ensures Reflects(Bits(WithBit(Advanced(bitmap, s - highest), 0)), s, committed + {s})
  {
    BitsMoved(bitmap, s - highest);
    MovedReflects(Bits(bitmap), highest, committed, s, Bits(WithBit(Advanced(bitmap, s - highest), 0)));
  }

  lemma MovedReflects(bits: set<nat>, highest: nat, committed: set<nat>, s: nat, bits': set<nat>)
    requires Reflects(bits, highest, committed) && Bounded(highest, committed)
    requires highest < s
    requires forall d :: d in bits' <==> d == 0 || (s - highest <= d < WINDOW_SIZE && d - (s - highest) in bits)
    ensures Reflects(bits', s, committed + {s})
  {
    forall d ensures d in bits' <==> 0 <= d < WINDOW_SIZE && d < s && s - d in committed + {s} {
      var e := d - (s - highest);
      assert e in bits <==> 0 <= e < WINDOW_SIZE && e < highest && highest - e in committed;
      assert highest - e == s - d;
    }
  }

  /** Under one lock, the commit of a token just issued by Check never fails. */
  lemma CheckedCommitSucceeds(w: Window, s: uint64)
    requires Check(w, s).Ok?
    ensures Commit(w, Check(w, s).value).Ok?
  {
  }

  /* ---------- whole runs ---------- */

  /** One commit attempt; a rejected one changes nothing. */
  function Next(w: Window, token: Token): Window {
    var r := Commit(w, token);
    if r.Ok? then r.value else w
  }

  /** The window after a run of commit attempts, accepted or not. */
  function CommitRun(w: Window, tokens: seq<Token>): Window
    decreases tokens
  {
    if tokens == [] then w else CommitRun(Next(w, tokens[0]), tokens[1..])
  }

  /** What one attempt adds to the committed set. */
  function Gain(w: Window, token: Token): set<nat> {
    if Commit(w, token).Ok? then {token.sequence} else {}
  }

  /** The sequences the run accepted. */
  function Accepted(w: Window, tokens: seq<Token>): set<nat>
    decreases tokens
  {
    if tokens == [] then {} else Gain(w, tokens[0]) + Accepted(Next(w, tokens[0]), tokens[1..])
  }

  lemma NextTracks(w: Window, committed: set<nat>, token: Token)
    requires Tracks(w, committed)
    ensures Tracks(Next(w, token), committed + Gain(w, token))
    ensures committed !! Gain(w, token)
    ensures Next(w, token).generation == w.generation + |Gain(w, token)|
  {
    CommitTracks(w, committed, token);
    assert committed + {} == committed;
  }

  lemma DisjointGain(committed: set<nat>, gain: set<nat>, rest: set<nat>)
    requires committed !! gain && committed + gain !! rest
    ensures committed !! gain + rest && |gain + rest| == |gain| + |rest|
    ensures committed + gain + rest == committed + (gain + rest)
  {
  }

  /** After any run the bitmap is exactly the accepted set, and the generation has counted every commit. */
  lemma {:induction false} RunTracks(w: Window, committed: set<nat>, tokens: seq<Token>)
    requires Tracks(w, committed)
    ensures Tracks(CommitRun(w, tokens), committed + Accepted(w, tokens))
    ensures committed !! Accepted(w, tokens)
    ensures CommitRun(w, tokens).generation == w.generation + |Accepted(w, tokens)|
    decreases tokens
  {
    if tokens == [] {
      assert committed + {} == committed;
    } else {
      var gain, w' := Gain(w, tokens[0]), Next(w, tokens[0]);
      NextTracks(w, committed, tokens[0]);
      RunTracks(w', committed + gain, tokens[1..]);
      DisjointGain(committed, gain, Accepted(w', tokens[1..]));
    }
  }

  /** A token taken before a later successful commit is always rejected. */
  lemma StaleTokenRejected(tokens: seq<Token>, later: seq<Token>, s: uint64)
    requires Check(CommitRun(EMPTY, tokens), s).Ok?
    requires Accepted(CommitRun(EMPTY, tokens), later) != {}
    ensures var w := CommitRun(EMPTY, tokens);
            Commit(CommitRun(w, later), Check(w, s).value) == Err(ReplayStale)
  {
    EmptyTracks();
    RunTracks(EMPTY, {}, tokens);
    RunTracks(CommitRun(EMPTY, tokens), {} + Accepted(EMPTY, tokens), later);
    assert |Accepted(CommitRun(EMPTY, tokens), later)| > 0;
  }
}

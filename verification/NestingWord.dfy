/**
 The nesting history of one thread, packed into a 32-bit word: the lowest bit
 is the newest access, 1 for shared and 0 for exclusive.
 */
module NestingWord {
  import opened AccessModel

  const WORD: nat := 0x1_0000_0000

  /** `uint32_t`. */
  type Word = n: nat | n < WORD

  function Bit(a: Access): nat {
    if a == Shared then 1 else 0
  }

  /** `(nesting << 1) | bit`, losing the highest bit. */
  function Push(w: Word, a: Access): Word {
    (2 * w + Bit(a)) % WORD
  }

  /** `nesting & 1`. */
  function Top(w: nat): Access {
    if w % 2 == 1 then Shared else Exclusive
  }

  /** `nesting >> 1`. */
  function Pop(w: Word): Word {
    w / 2
  }

  /** The low |h| bits of w spell out h; the other bits may be anything. */
  ghost predicate Encodes(w: nat, h: seq<Access>) {
    h == [] || (Top(w) == h[|h| - 1] && Encodes(w / 2, h[..|h| - 1]))
  }

  /** The number of ones among the k lowest bits. */
  ghost function Ones(w: nat, k: nat): nat {
    if k == 0 then 0 else w % 2 + Ones(w / 2, k - 1)
  }

  /** Ones stand for shared accesses: there are as many as the history has. */
  lemma {:induction false} OnesAreShared(w: nat, h: seq<Access>)
    requires Encodes(w, h)
    ensures Ones(w, |h|) == multiset(h)[Shared]
  {
    if h != [] {
      var front := h[..|h| - 1];
      OnesAreShared(w / 2, front);
      assert h == front + [h[|h| - 1]];
      assert multiset(h) == multiset(front) + multiset{h[|h| - 1]};
    }
  }

  ghost function Pow2(k: nat): nat {
    if k == 0 then 1 else 2 * Pow2(k - 1)
  }

  lemma Halve(w: nat, p: nat)
    requires w >= 2 * p
    ensures w / 2 >= p && (w - 2 * p) / 2 == w / 2 - p && Top(w - 2 * p) == Top(w)
  {
  }

  /** Only the low |h| bits matter: taking away a higher one changes nothing. */
  lemma {:induction false} HighBitsDoNotMatter(w: nat, h: seq<Access>, k: nat)
    requires |h| <= k && w >= Pow2(k)
    ensures Encodes(w, h) <==> Encodes(w - Pow2(k), h)
  {
    if h != [] {
      var p := Pow2(k - 1);
      Halve(w, p);
      HighBitsDoNotMatter(w / 2, h[..|h| - 1], k - 1);
    }
  }

  lemma Pow31()
    ensures 2 * Pow2(31) == WORD
  {
    assert Pow2(7) == 128 && Pow2(8) == 256;
    PowSum(8, 8);
    PowSum(16, 8);
    PowSum(24, 7);
  }

  lemma {:induction false} PowSum(a: nat, b: nat)
    ensures Pow2(a + b) == Pow2(a) * Pow2(b)
  {
    if b > 0 {
      PowSum(a, b - 1);
      assert Pow2(a + b) == 2 * Pow2(a + b - 1);
    }
  }

  /** A push shifts the word and drops its highest bit. */
  lemma PushShifts(w: Word, a: Access)
    ensures Push(w, a) % 2 == Bit(a)
    ensures Push(w, a) / 2 == if w >= Pow2(31) then w - Pow2(31) else w
  {
    Pow31();
  }

  /** Whatever the word held before, a depth below 32 leaves room: a push appends to the history. */
  lemma PushAppends(w: Word, h: seq<Access>, a: Access)
    requires Encodes(w, h) && |h| < MAX_NEST
    ensures Encodes(Push(w, a), h + [a])
  {
    PushShifts(w, a);
    if w >= Pow2(31) {
      HighBitsDoNotMatter(w, h, 31);
    }
    assert (h + [a])[..|h + [a]| - 1] == h;
  }

  /** The word determines the history: no two histories of one length look alike. */
  lemma {:induction false} EncodesInjective(w: nat, h: seq<Access>, g: seq<Access>)
    requires Encodes(w, h) && Encodes(w, g) && |h| == |g|
    ensures h == g
  {
    if h != [] {
      EncodesInjective(w / 2, h[..|h| - 1], g[..|g| - 1]);
      assert h == h[..|h| - 1] + [h[|h| - 1]] && g == g[..|g| - 1] + [g[|g| - 1]];
    }
  }

  /** A history of n + 1 accesses that begins with a shared one needs a word of at least 2 to the n. */
  lemma {:induction false} OldestIsHighest(w: nat, h: seq<Access>)
    requires h != [] && h[0] == Shared && Encodes(w, h)
    ensures w >= Pow2(|h| - 1)
  {
    if |h| > 1 {
      OldestIsHighest(w / 2, h[..|h| - 1]);
    }
  }

  /** If the oldest of n + 1 accesses is exclusive, the bit of weight 2 to the n is not set. */
  lemma {:induction false} OldestIsLow(w: nat, h: seq<Access>)
    requires h != [] && h[0] == Exclusive && Encodes(w, h) && w < Pow2(|h|)
    ensures w < Pow2(|h| - 1)
  {
    if |h| > 1 {
      OldestIsLow(w / 2, h[..|h| - 1]);
    }
  }

  /** The limit of 32 is tight: one push more, and the history survives exactly if its oldest access was exclusive. */
  lemma DepthLimitIsTight(w: Word, h: seq<Access>, a: Access)
    requires Encodes(w, h) && |h| == MAX_NEST
    ensures Encodes(Push(w, a), h + [a]) <==> h[0] == Exclusive
  {
    Pow31();
    PushShifts(w, a);
    assert (h + [a])[..|h + [a]| - 1] == h;
    if h[0] == Exclusive {
      OldestIsLow(w, h);
    } else if Encodes(Push(w, a), h + [a]) {
      OldestIsHighest(Push(w, a) / 2, h);
    }
  }
}

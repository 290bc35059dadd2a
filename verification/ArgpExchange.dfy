/** The in-place block swap at the centre of argument permutation. */
module ArgpExchange {

  /** The vector with the adjacent blocks [bottom, middle) and [middle, top) swapped. */
  function Rotated<T>(a: seq<T>, bottom: nat, middle: nat, top: nat): (r: seq<T>)
    requires bottom <= middle <= top <= |a|
    ensures |r| == |a|
  {
    a[..bottom] + a[middle..top] + a[bottom..middle] + a[top..]
  }

  /** Where each element goes. */
  lemma RotatedAt<T>(a: seq<T>, bottom: nat, middle: nat, top: nat, k: nat)
    requires bottom <= middle <= top <= |a| && k < |a|
    ensures Rotated(a, bottom, middle, top)[k] ==
            if k < bottom || top <= k then a[k]
            else if k < bottom + (top - middle) then a[k + (middle - bottom)]
            else a[k - (top - middle)]
  {
  }

  lemma RotatedPermutes<T>(a: seq<T>, bottom: nat, middle: nat, top: nat)
    requires bottom <= middle <= top <= |a|
    ensures multiset(Rotated(a, bottom, middle, top)) == multiset(a)
  {
    assert a == a[..bottom] + a[bottom..middle] + a[middle..top] + a[top..];
  }

  /** S is A with the two blocks of N elements at LO and HI swapped. */
  ghost predicate BlocksSwapped<T>(a: seq<T>, s: seq<T>, lo: nat, hi: nat, n: nat)
    requires lo + n <= hi && hi + n <= |a|
  {
    && |s| == |a|
    && s[lo..lo + n] == a[hi..hi + n]
    && s[hi..hi + n] == a[lo..lo + n]
    && s[..lo] == a[..lo] && s[lo + n..hi] == a[lo + n..hi] && s[hi + n..] == a[hi + n..]
  }

  method SwapBlocks<T>(argv: array<T>, lo: nat, hi: nat, n: nat)
    requires lo + n <= hi && hi + n <= argv.Length
    modifies argv
    ensures BlocksSwapped(old(argv[..]), argv[..], lo, hi, n)
  {
    for i := 0 to n
      invariant forall k :: lo <= k < lo + i ==> argv[k] == old(argv[k - lo + hi])
      invariant forall k :: hi <= k < hi + i ==> argv[k] == old(argv[k - hi + lo])
      invariant forall k :: 0 <= k < lo || lo + i <= k < hi || hi + i <= k < argv.Length ==> argv[k] == old(argv[k])
    {
      argv[lo + i], argv[hi + i] := argv[hi + i], argv[lo + i];
    }
  }

  /** After one swap of the bottom block, the shorter of the two, a smaller rotation is left to do. */
  lemma ShortBottom<T>(a: seq<T>, s: seq<T>, bottom: nat, middle: nat, top: nat)
    requires bottom <= middle <= top <= |a| && middle - bottom < top - middle
    requires BlocksSwapped(a, s, bottom, top - (middle - bottom), middle - bottom)
    ensures Rotated(s, bottom, middle, top - (middle - bottom)) == Rotated(a, bottom, middle, top)
  {
    var cut := top - (middle - bottom);
    assert s[cut..] == a[bottom..middle] + a[top..] by { assert s[cut..] == s[cut..top] + s[top..]; }
    assert a[middle..cut] + a[cut..top] == a[middle..top];
  }

  lemma ShortTop<T>(a: seq<T>, s: seq<T>, bottom: nat, middle: nat, top: nat)
    requires bottom <= middle <= top <= |a| && top - middle <= middle - bottom
    requires BlocksSwapped(a, s, bottom, middle, top - middle)
    ensures Rotated(s, bottom + (top - middle), middle, top) == Rotated(a, bottom, middle, top)
  {
    var cut := bottom + (top - middle);
    assert s[..cut] == a[..bottom] + a[middle..top] by { assert s[..cut] == s[..bottom] + s[bottom..cut]; }
    assert a[bottom..cut] + a[cut..middle] == a[bottom..middle];
  }

  lemma EmptyBlock<T>(a: seq<T>, bottom: nat, middle: nat, top: nat)
    requires bottom <= middle <= top <= |a| && (middle == bottom || top == middle)
    ensures Rotated(a, bottom, middle, top) == a
  {
    assert a == a[..bottom] + a[bottom..top] + a[top..];
  }

  /** One round of the loop when the bottom block is shorter. */
  method PlaceBottom<T>(argv: array<T>, bottom: nat, middle: nat, top: nat) returns (newTop: nat)
    requires bottom < middle < top <= argv.Length && middle - bottom < top - middle
    modifies argv
    ensures middle <= newTop < top
    ensures Rotated(argv[..], bottom, middle, newTop) == Rotated(old(argv[..]), bottom, middle, top)
  {
    ghost var was := argv[..];
    var len := middle - bottom;
    newTop := top - len;
    SwapBlocks(argv, bottom, newTop, len);
    ShortBottom(was, argv[..], bottom, middle, top);
  }

  /** One round of the loop when the top block is no longer than the other. */
  method PlaceTop<T>(argv: array<T>, bottom: nat, middle: nat, top: nat) returns (newBottom: nat)
    requires bottom < middle < top <= argv.Length && top - middle <= middle - bottom
    modifies argv
    ensures bottom < newBottom <= middle
    ensures Rotated(argv[..], newBottom, middle, top) == Rotated(old(argv[..]), bottom, middle, top)
  {
    ghost var was := argv[..];
    var len := top - middle;
    newBottom := bottom + len;
    SwapBlocks(argv, bottom, middle, len);
    ShortTop(was, argv[..], bottom, middle, top);
  }

  /** The loop of exchange: swap the shorter block into place until one of the two is empty. */
  method Rotate<T>(argv: array<T>, first: nat, middle: nat, next: nat)
    requires first <= middle <= next <= argv.Length
    modifies argv
    ensures argv[..] == Rotated(old(argv[..]), first, middle, next)
  {
    var bottom: nat, top: nat := first, next;
    while top > middle && middle > bottom
      invariant bottom <= middle <= top <= argv.Length
      invariant Rotated(argv[..], bottom, middle, top) == Rotated(old(argv[..]), first, middle, next)
      decreases top - bottom
    {
      if top - middle > middle - bottom {
        top := PlaceBottom(argv, bottom, middle, top);
      } else {
        bottom := PlaceTop(argv, bottom, middle, top);
      }
    }
    EmptyBlock(argv[..], bottom, middle, top);
  }
}

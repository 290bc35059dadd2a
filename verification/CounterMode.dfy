/** The counter-mode encoder: a block cipher turned into a stream cipher by encrypting a counter. */
module CounterMode {
  import opened Sequences

  type byte = bv8

  function Xor(a: byte, b: byte): byte {
    a ^ b
  }

  // ---------- the counter ----------

  /** The number a counter stands for, least significant byte first. */
  function Value(c: seq<byte>): nat {
    if c == [] then 0 else (c[0] as int) + 256 * Value(c[1..])
  }

  /** 256 to the power N: how many counters of N bytes there are. */
  function Modulus(n: nat): nat {
    if n == 0 then 1 else 256 * Modulus(n - 1)
  }

  /** Add one to the first byte, and carry on to the next one while the result is 0. */
  function Increment(c: seq<byte>): (r: seq<byte>)
    ensures |r| == |c|
  {
    if c == [] then []
    else if c[0] < 255 then [c[0] + 1] + c[1..]
    else [0] + Increment(c[1..])
  }

  lemma {:induction false} ValueInRange(c: seq<byte>)
    ensures Value(c) < Modulus(|c|)
  {
    if c == [] {
    } else {
      ValueInRange(c[1..]);
    }
  }

  lemma {:induction false} IncrementIsSuccessor(c: seq<byte>)
    ensures Value(Increment(c)) == if Value(c) + 1 == Modulus(|c|) then 0 else Value(c) + 1
  {
    if c == [] {
    } else {
      ValueInRange(c[1..]);
      if c[0] == 255 {
        IncrementIsSuccessor(c[1..]);
        assert Increment(c)[1..] == Increment(c[1..]);
      } else {
        assert Increment(c)[1..] == c[1..];
      }
    }
  }

  lemma {:induction false} ValueIsInjective(c: seq<byte>, d: seq<byte>)
    requires |c| == |d| && Value(c) == Value(d)
    ensures c == d
  {
    if c == [] {
    } else {
      ValueIsInjective(c[1..], d[1..]);
      assert c == [c[0]] + c[1..] && d == [d[0]] + d[1..];
    }
  }

  /** The counter after K increments. */
  function Advance(c: seq<byte>, k: nat): (r: seq<byte>)
    ensures |r| == |c|
  {
    if k == 0 then c else Increment(Advance(c, k - 1))
  }

  lemma {:induction false} AdvanceAdd(c: seq<byte>, j: nat, k: nat)
    ensures Advance(Advance(c, j), k) == Advance(c, j + k)
  {
    if k == 0 {
    } else {
      AdvanceAdd(c, j, k - 1);
    }
  }

  /** K steps, up to the number of counters there are, add K and wrap around at most once. */
  lemma {:induction false} AdvanceValue(c: seq<byte>, k: nat)
    requires k <= Modulus(|c|)
    ensures Value(Advance(c, k)) == if Value(c) + k < Modulus(|c|) then Value(c) + k else Value(c) + k - Modulus(|c|)
  {
    ValueInRange(c);
    if k == 0 {
    } else {
      AdvanceValue(c, k - 1);
      IncrementIsSuccessor(Advance(c, k - 1));
    }
  }

  /** The counter comes back after exactly 256^n blocks, and no block of the same cycle meets it again. */
  lemma CounterPeriod(c: seq<byte>, i: nat, j: nat)
    ensures Advance(c, i + Modulus(|c|)) == Advance(c, i)
    ensures i < j < i + Modulus(|c|) ==> Advance(c, i) != Advance(c, j)
  {
    var d, m := Advance(c, i), Modulus(|c|);
    ValueInRange(d);
    AdvanceAdd(c, i, m);
    AdvanceValue(d, m);
    ValueIsInjective(Advance(d, m), d);
    if i < j < i + m {
      AdvanceAdd(c, i, j - i);
      AdvanceValue(d, j - i);
    }
  }

  // ---------- the cipher ----------

  /** What keycrypt does to a block; it is taken to succeed. */
  type Cipher = seq<byte> -> seq<byte>

  /** The blocks have the size of the counter. */
  ghost predicate IsBlockCipher(e: Cipher, n: nat) {
    n > 0 && forall c {:trigger e(c)} :: |c| == n ==> |e(c)| == n
  }

  function XorEach(data: seq<byte>, key: seq<byte>): (r: seq<byte>)
    requires |data| <= |key|
    ensures |r| == |data|
  {
    seq(|data|, j requires 0 <= j < |data| => Xor(data[j], key[j]))
  }

  /** LEN bytes of key: the encryptions of the counter, the next counter and so on, the last one cut short. */
  ghost function KeyStream(e: Cipher, c: seq<byte>, len: nat): (r: seq<byte>)
    requires IsBlockCipher(e, |c|)
    ensures |r| == len
    decreases len
  {
    if len <= |c| then e(c)[..len] else e(c) + KeyStream(e, Increment(c), len - |c|)
  }

  /** Counter mode. */
  ghost function Ctr(e: Cipher, c: seq<byte>, data: seq<byte>): (r: seq<byte>)
    requires IsBlockCipher(e, |c|)
    ensures |r| == |data|
  {
    XorEach(data, KeyStream(e, c, |data|))
  }

  /** The counters that LEN bytes use up. */
  function Blocks(len: nat, n: nat): nat
    requires n > 0
    decreases len
  {
    if len == 0 then 0 else if len <= n then 1 else 1 + Blocks(len - n, n)
  }

  /** The bytes that do not make a block. */
  function Odd(len: nat, n: nat): (r: nat)
    requires n > 0
    ensures r < n && r <= len
    decreases len
  {
    if len < n then len else Odd(len - n, n)
  }

  /** Decoding is encoding again from the same counter. */
  lemma CtrTwice(e: Cipher, c: seq<byte>, data: seq<byte>)
    requires IsBlockCipher(e, |c|)
    ensures Ctr(e, c, Ctr(e, c, data)) == data
  {
    var key := KeyStream(e, c, |data|);
    forall j | 0 <= j < |data| ensures Xor(Xor(data[j], key[j]), key[j]) == data[j] {
    }
  }

  /** Byte I of block B is the plain byte against byte I of the encryption of the counter advanced by B. */
  lemma CtrAt(e: Cipher, c: seq<byte>, data: seq<byte>, b: nat, i: nat)
    requires IsBlockCipher(e, |c|) && i < |c| && |c| * b + i < |data|
    ensures 0 <= |c| * b
    ensures Ctr(e, c, data)[|c| * b + i] == data[|c| * b + i] ^ e(Advance(c, b))[i]
  {
    KeyAt(e, c, |data|, b, i);
  }

  lemma {:induction false} KeyAt(e: Cipher, c: seq<byte>, len: nat, b: nat, i: nat)
    requires IsBlockCipher(e, |c|) && i < |c| && |c| * b + i < len
    ensures 0 <= |c| * b
    ensures KeyStream(e, c, len)[|c| * b + i] == e(Advance(c, b))[i]
    decreases b
  {
    var n := |c|;
    if b == 0 {
      assert n * b == 0;
    } else {
      assert n * b == n * (b - 1) + n;
      KeyAt(e, Increment(c), len - n, b - 1, i);
      FirstStep(c, b - 1);
    }
  }

  lemma FirstStep(c: seq<byte>, k: nat)
    ensures Advance(Increment(c), k) == Advance(c, 1 + k)
  {
    AdvanceAdd(c, 1, k);
    assert Advance(c, 1) == Increment(Advance(c, 0));
  }

  lemma {:induction false} BlocksAdd(len: nat, more: nat, n: nat)
    requires n > 0 && Odd(len, n) == 0
    ensures Blocks(len + more, n) == Blocks(len, n) + Blocks(more, n)
    decreases len
  {
    if len > 0 {
      BlocksAdd(len - n, more, n);
    }
  }

  /** Whole blocks first, then the rest from the counter that they leave. */
  lemma {:induction false} KeySplit(e: Cipher, c: seq<byte>, len: nat, more: nat)
    requires IsBlockCipher(e, |c|) && Odd(len, |c|) == 0
    ensures KeyStream(e, c, len + more)
         == KeyStream(e, c, len) + KeyStream(e, Advance(c, Blocks(len, |c|)), more)
    decreases len
  {
    var n := |c|;
    if len > 0 {
      var next, k := Increment(c), Blocks(len - n, n);
      KeySplit(e, next, len - n, more);
      FirstStep(c, k);
      FullBlock(e, c, len);
      FullBlock(e, c, len + more);
      Assoc(e(c), KeyStream(e, next, len - n), KeyStream(e, Advance(next, k), more));
    }
  }

  /** A full block can always be split off, also when it is the last one. */
  lemma FullBlock(e: Cipher, c: seq<byte>, len: nat)
    requires IsBlockCipher(e, |c|) && len >= |c|
    ensures KeyStream(e, c, len) == e(c) + KeyStream(e, Increment(c), len - |c|)
  {
  }

  lemma CtrSplit(e: Cipher, c: seq<byte>, front: seq<byte>, rest: seq<byte>)
    requires IsBlockCipher(e, |c|) && Odd(|front|, |c|) == 0
    ensures Ctr(e, c, front + rest) == Ctr(e, c, front) + Ctr(e, Advance(c, Blocks(|front|, |c|)), rest)
  {
    var d := Advance(c, Blocks(|front|, |c|));
    KeySplitTotal(e, c, d, |front|, |rest|, |front + rest|);
    SplitBy(front, rest, KeyStream(e, c, |front|), KeyStream(e, d, |rest|), KeyStream(e, c, |front + rest|));
  }

  lemma KeySplitTotal(e: Cipher, c: seq<byte>, d: seq<byte>, len: nat, more: nat, total: nat)
    requires IsBlockCipher(e, |c|) && Odd(len, |c|) == 0
    requires total == len + more && d == Advance(c, Blocks(len, |c|))
    ensures KeyStream(e, c, total) == KeyStream(e, c, len) + KeyStream(e, d, more)
  {
    KeySplit(e, c, len, more);
  }

  lemma SplitBy(front: seq<byte>, rest: seq<byte>, key: seq<byte>, more: seq<byte>, all: seq<byte>)
    requires |front| == |key| && |rest| == |more| && all == key + more
    ensures XorEach(front + rest, all) == XorEach(front, key) + XorEach(rest, more)
  {
    XorParts(front, rest, key, more);
  }

  lemma XorParts(front: seq<byte>, rest: seq<byte>, key: seq<byte>, more: seq<byte>)
    requires |front| == |key| && |rest| == |more|
    ensures XorEach(front + rest, key + more) == XorEach(front, key) + XorEach(rest, more)
  {
  }

  // ---------- the encoder ----------

  /** A WvBuf, seen as the bytes it holds. How they are cut into chunks in storage is up to the buffer:
      the Opt methods give any length that it may offer in one piece. */
  class WvBuf {
    var data: seq<byte>

    constructor (data: seq<byte>)
      ensures this.data == data
    {
      this.data := data;
    }

    method OptPeekable(offset: nat) returns (len: nat)
      requires offset < |data|
      ensures 0 < len <= |data| - offset
    {
      len :| 0 < len <= |data| - offset;
    }

    method OptGettable() returns (len: nat)
      requires data != []
      ensures 0 < len <= |data|
    {
      len :| 0 < len <= |data|;
    }

    method Put(bytes: seq<byte>)
      modifies this
      ensures data == old(data) + bytes
    {
      data := data + bytes;
    }

    method Get(len: nat) returns (bytes: seq<byte>)
      requires len <= |data|
      modifies this
      ensures bytes == old(data)[..len] && data == old(data)[len..]
    {
      bytes, data := data[..len], data[len..];
    }

    method Unalloc(len: nat)
      requires len <= |data|
      modifies this
      ensures data == old(data)[..|old(data)| - len]
    {
      data := data[..|data| - len];
    }
  }

  /** How many of LEN waiting bytes a call takes. */
  function Taken(len: nat, n: nat, flush: bool): (r: nat)
    requires n > 0
    ensures r <= len
  {
    if flush then len else len - Odd(len, n)
  }

  class WvCounterModeEncoder {
    const keycrypt: Cipher
    var counter: array<byte>

    ghost predicate Valid()
      reads this
    {
      IsBlockCipher(keycrypt, counter.Length)
    }

    constructor (keycrypt: Cipher, counter: seq<byte>)
      requires IsBlockCipher(keycrypt, |counter|)
      ensures Valid() && fresh(this.counter) && this.keycrypt == keycrypt && this.counter[..] == counter
    {
      this.keycrypt := keycrypt;
      this.counter := new byte[|counter|](i requires 0 <= i < |counter| => counter[i]);
    }

    method IncrCounter()
      modifies counter
      ensures counter[..] == Increment(old(counter[..]))
    {
      ghost var was := counter[..];
      var i := 0;
      while i < counter.Length
        invariant Carrying(was, counter[..], i)
      {
        CarryOn(was, counter[..], i);
        ghost var now := counter[..][i := counter[i] + 1];
        counter[i] := counter[i] + 1;
        assert counter[..] == now;
        if counter[i] != 0 {
          return;
        }
        i := i + 1;
      }
    }

    /** The key for the whole blocks among AVAIL bytes; LEN bytes are left over. */
    method MakeBlocks(outbuf: WvBuf, avail: nat) returns (len: nat)
      requires Valid()
      modifies counter, outbuf
      ensures len == Odd(avail, counter.Length)
      ensures Made(keycrypt, old(counter[..]), avail - len, KeyStream(keycrypt, old(counter[..]), avail - len), counter[..])
      ensures outbuf.data == old(outbuf.data) + KeyStream(keycrypt, old(counter[..]), avail - len)
    {
      ghost var was, first, key := outbuf.data, counter[..], [];
      var n := counter.Length;
      len := avail;
      while len >= n
        invariant len <= avail && Odd(avail, n) == Odd(len, n)
        invariant outbuf.data == was + key
        invariant Made(keycrypt, first, avail - len, key, counter[..])
      {
        MoreKey(keycrypt, first, avail - len, key, counter[..], n);
        Assoc(was, key, keycrypt(counter[..]));
        key := key + keycrypt(counter[..]);
        outbuf.Put(keycrypt(counter[..]));
        IncrCounter();
        len := len - n;
      }
    }

    /** The key for the last LEN bytes, less than a block: a whole one, cut back. */
    method MakeRest(outbuf: WvBuf, len: nat)
      requires Valid() && len <= counter.Length
      modifies counter, outbuf
      ensures outbuf.data == old(outbuf.data) + keycrypt(old(counter[..]))[..len]
      ensures counter[..] == Increment(old(counter[..]))
    {
      CutBack(outbuf.data, keycrypt(counter[..]), len);
      outbuf.Put(keycrypt(counter[..]));
      outbuf.Unalloc(counter.Length - len);
      IncrCounter();
    }

    /** The first half of _encode: the key, and how many bytes it is for. */
    method MakeKey(outbuf: WvBuf, avail: nat, flush: bool) returns (taken: nat)
      requires Valid()
      modifies counter, outbuf
      ensures taken == Taken(avail, counter.Length, flush)
      ensures outbuf.data == old(outbuf.data) + KeyStream(keycrypt, old(counter[..]), taken)
      ensures counter[..] == Advance(old(counter[..]), Blocks(taken, counter.Length))
    {
      ghost var was, first := outbuf.data, counter[..];
      var len := MakeBlocks(outbuf, avail);
      if flush && len != 0 {
        LastKey(keycrypt, first, avail - len, counter[..], len, was);
        MakeRest(outbuf, len);
        len := 0;
      }
      taken := avail - len;
    }

    /** The second half of _encode: AVAIL bytes of INBUF against the key in OUTBUF from START on. */
    static method XorIn(inbuf: WvBuf, outbuf: WvBuf, start: nat, avail: nat)
      requires inbuf != outbuf && avail <= |inbuf.data| && start + avail == |outbuf.data|
      modifies inbuf, outbuf
      ensures inbuf.data == old(inbuf.data)[avail..]
      ensures outbuf.data == old(outbuf.data)[..start] + XorEach(old(inbuf.data)[..avail], old(outbuf.data)[start..])
    {
      ghost var input, before, key := inbuf.data, outbuf.data[..start], outbuf.data[start..];
      var offset: nat, left: nat := start, avail;
      ghost var done: nat := 0;
      MixStart(input, outbuf.data, start);
      while left > 0
        invariant done + left == avail && (left > 0 ==> offset == start + done)
        invariant Mixing(before, input, key, done, inbuf.data, outbuf.data)
      {
        var at := offset;
        var len := ChunkSize(inbuf, outbuf, at);
        MixStep(before, input, key, done, inbuf.data, outbuf.data, at, len);
        done := done + len;
        var datain := inbuf.Get(len);
        if len >= left {
          len := left;
          left := 0;
        } else {
          left := left - len;
          offset := offset + len;
        }
        XorChunk(outbuf, at, datain);
      }
      MixDone(before, input, key, inbuf.data, outbuf.data);
    }

    /** As many bytes as both buffers offer in one piece. */
    static method ChunkSize(inbuf: WvBuf, outbuf: WvBuf, at: nat) returns (len: nat)
      requires at < |outbuf.data| && inbuf.data != []
      ensures 0 < len <= |inbuf.data| && at + len <= |outbuf.data|
    {
      len := outbuf.OptPeekable(at);
      var lenopt := inbuf.OptGettable();
      if len > lenopt {
        len := lenopt;
      }
    }

    /** The innermost loop of _encode. */
    static method XorChunk(outbuf: WvBuf, at: nat, datain: seq<byte>)
      requires at + |datain| <= |outbuf.data|
      modifies outbuf
      ensures outbuf.data == WithXor(old(outbuf.data), at, datain)
    {
      var i := 0;
      while i < |datain|
        invariant i <= |datain|
        invariant outbuf.data == WithXor(old(outbuf.data), at, datain[..i])
      {
        outbuf.data := outbuf.data[at + i := Xor(outbuf.data[at + i], datain[i])];
        i := i + 1;
      }
      assert datain[..i] == datain;
    }

    method Encode(inbuf: WvBuf, outbuf: WvBuf, flush: bool) returns (success: bool)
      requires Valid() && inbuf != outbuf
      modifies counter, inbuf, outbuf
      ensures success
      ensures outbuf.data == old(outbuf.data) + Call(keycrypt, old(counter[..]), old(inbuf.data), flush).0
      ensures counter[..] == Call(keycrypt, old(counter[..]), old(inbuf.data), flush).1
      ensures inbuf.data == Call(keycrypt, old(counter[..]), old(inbuf.data), flush).2
    {
      var avail, offset := |inbuf.data|, |outbuf.data|;
      var taken := MakeKey(outbuf, avail, flush);
      XorIn(inbuf, outbuf, offset, taken);
      success := true;
    }
  }

  /** DATA with its bytes from AT on replaced by their exclusive or with BYTES. */
  function WithXor(data: seq<byte>, at: nat, bytes: seq<byte>): (r: seq<byte>)
    requires at + |bytes| <= |data|
    ensures |r| == |data|
  {
    seq(|data|, j requires 0 <= j < |data| =>
      if at <= j < at + |bytes| then Xor(data[j], bytes[j - at]) else data[j])
  }

  /** When DONE bytes of INPUT are mixed in: the output has what was there before, cipher text, and key. */
  ghost predicate Mixing(before: seq<byte>, input: seq<byte>, key: seq<byte>, done: nat,
                         nowIn: seq<byte>, nowOut: seq<byte>) {
    && done <= |key| <= |input| && nowIn == input[done..]
    && |nowOut| == |before| + |key| && nowOut[..|before|] == before
    && forall j :: 0 <= j < |key| ==>
         nowOut[|before| + j] == if j < done then Xor(input[j], key[j]) else key[j]
  }

  lemma MixStart(input: seq<byte>, out: seq<byte>, start: nat)
    requires start <= |out| <= start + |input|
    ensures Mixing(out[..start], input, out[start..], 0, input, out)
  {
  }

  lemma MixStep(before: seq<byte>, input: seq<byte>, key: seq<byte>, done: nat,
                nowIn: seq<byte>, nowOut: seq<byte>, at: nat, len: nat)
    requires Mixing(before, input, key, done, nowIn, nowOut) && at == |before| + done && done + len <= |key|
    ensures Mixing(before, input, key, done + len, nowIn[len..], WithXor(nowOut, at, nowIn[..len]))
  {
    forall k | done <= k < done + len ensures Xor(key[k], nowIn[k - done]) == Xor(input[k], key[k]) {
    }
  }

  lemma MixDone(before: seq<byte>, input: seq<byte>, key: seq<byte>, nowIn: seq<byte>, nowOut: seq<byte>)
    requires Mixing(before, input, key, |key|, nowIn, nowOut)
    ensures nowOut == before + XorEach(input[..|key|], key)
  {
  }

  /** One call of _encode with DATA waiting: what it puts out, the counter after it, and what still waits. */
  ghost function Call(e: Cipher, c: seq<byte>, data: seq<byte>, flush: bool): (seq<byte>, seq<byte>, seq<byte>)
    requires IsBlockCipher(e, |c|)
  {
    var taken := Taken(|data|, |c|, flush);
    (Ctr(e, c, data[..taken]), Advance(c, Blocks(taken, |c|)), data[taken..])
  }

  lemma {:induction false} WholeBlocks(len: nat, n: nat)
    requires n > 0
    ensures len == n * Blocks(len - Odd(len, n), n) + Odd(len, n)
    decreases len
  {
    if len >= n {
      WholeBlocks(len - n, n);
      var rest := len - n - Odd(len - n, n);
      assert n * (1 + Blocks(rest, n)) == n + n * Blocks(rest, n);
    } else {
      assert n * 0 == 0;
    }
  }

  lemma {:induction false} EnoughBlocks(len: nat, n: nat)
    requires n > 0 && len > 0
    ensures Blocks(len, n) > 0 && n * (Blocks(len, n) - 1) < len <= n * Blocks(len, n)
    decreases len
  {
    if len > n {
      EnoughBlocks(len - n, n);
      var k := Blocks(len - n, n);
      assert n * (k - 1) + n == n * k && n * k + n == n * (k + 1);
    } else {
      assert n * 0 == 0 && n * 1 == n;
    }
  }

  /** K blocks of N bytes are what LEN bytes need when LEFT of them stay behind: without flush, all whole blocks, and
      with flush, as many as it takes. */
  predicate Needs(n: nat, len: nat, left: nat, flush: bool, k: nat) {
    if !flush then len == n * k + left && left < n
    else left == 0 && if len == 0 then k == 0 else k > 0 && n * (k - 1) < len <= n * k
  }

  lemma TakenNeeds(len: nat, n: nat, flush: bool)
    requires n > 0
    ensures var taken := Taken(len, n, flush); Needs(n, len, len - taken, flush, Blocks(taken, n))
  {
    if !flush {
      WholeBlocks(len, n);
    } else if len > 0 {
      EnoughBlocks(len, n);
    }
  }

  /** A call without flush encodes all whole blocks and leaves less than a block waiting; with flush it leaves
      nothing, and a block that is not full uses up a counter, too. */
  lemma CallTakes(e: Cipher, c: seq<byte>, data: seq<byte>, flush: bool) returns (k: nat)
    requires IsBlockCipher(e, |c|)
    ensures var (out, d, rest) := Call(e, c, data, flush);
      && |out| <= |data| && rest == data[|out|..] && out == Ctr(e, c, data[..|out|])
      && d == Advance(c, k) && Needs(|c|, |data|, |rest|, flush, k)
  {
    k := Blocks(Taken(|data|, |c|, flush), |c|);
    TakenNeeds(|data|, |c|, flush);
  }

  /** Calls without flush, each after more data has come, and a flush at the end: all that is put out, and
      the counter at the end. */
  ghost function Session(e: Cipher, c: seq<byte>, waiting: seq<byte>, pieces: seq<seq<byte>>): (seq<byte>, seq<byte>)
    requires IsBlockCipher(e, |c|)
    decreases |pieces|
  {
    if pieces == [] then
      var (out, d, rest) := Call(e, c, waiting, true);
      (out, d)
    else
      var (out, d, rest) := Call(e, c, waiting + pieces[0], false);
      var (more, last) := Session(e, d, rest, pieces[1..]);
      (out + more, last)
  }

  function Joined(pieces: seq<seq<byte>>): seq<byte> {
    if pieces == [] then [] else pieces[0] + Joined(pieces[1..])
  }

  /** However the data is cut into pieces, the session puts out what a single flush of all of it does. */
  lemma {:induction false} SessionIsOneFlush(e: Cipher, c: seq<byte>, waiting: seq<byte>, pieces: seq<seq<byte>>)
    requires IsBlockCipher(e, |c|)
    ensures Session(e, c, waiting, pieces) == OneFlush(e, c, waiting + Joined(pieces))
    decreases |pieces|
  {
    if pieces == [] {
      assert waiting + Joined(pieces) == waiting;
      assert waiting[..|waiting|] == waiting;
    } else {
      var data, later := waiting + pieces[0], Joined(pieces[1..]);
      var taken := Taken(|data|, |c|, false);
      WholeBlocksTaken(|data|, |c|);
      SessionIsOneFlush(e, Advance(c, Blocks(taken, |c|)), data[taken..], pieces[1..]);
      FlushSplit(e, c, data[..taken], data[taken..] + later);
      Assoc(waiting, pieces[0], later);
      Assoc(data[..taken], data[taken..], later);
      assert data == data[..taken] + data[taken..];
    }
  }

  /** A single flush of all of DATA: the output and the counter after it. */
  ghost function OneFlush(e: Cipher, c: seq<byte>, data: seq<byte>): (seq<byte>, seq<byte>)
    requires IsBlockCipher(e, |c|)
  {
    (Ctr(e, c, data), Advance(c, Blocks(|data|, |c|)))
  }

  lemma FlushSplit(e: Cipher, c: seq<byte>, front: seq<byte>, rest: seq<byte>)
    requires IsBlockCipher(e, |c|) && Odd(|front|, |c|) == 0
    ensures var (more, last) := OneFlush(e, Advance(c, Blocks(|front|, |c|)), rest);
      OneFlush(e, c, front + rest) == (Ctr(e, c, front) + more, last)
  {
    CtrSplit(e, c, front, rest);
    AdvanceBlocks(c, |front|, |rest|);
    assert |front + rest| == |front| + |rest|;
  }

  lemma AdvanceBlocks(c: seq<byte>, len: nat, more: nat)
    requires |c| > 0 && Odd(len, |c|) == 0
    ensures Advance(c, Blocks(len + more, |c|)) == Advance(Advance(c, Blocks(len, |c|)), Blocks(more, |c|))
  {
    BlocksAdd(len, more, |c|);
    AdvanceAdd(c, Blocks(len, |c|), Blocks(more, |c|));
  }

  lemma {:induction false} WholeBlocksTaken(len: nat, n: nat)
    requires n > 0
    ensures Odd(len - Odd(len, n), n) == 0
    decreases len
  {
    if len >= n {
      WholeBlocksTaken(len - n, n);
    }
  }

  /** A decoder that starts from the same counter restores the data, whatever pieces either side gets it in. */
  lemma SessionRoundTrip(e: Cipher, c: seq<byte>, plain: seq<seq<byte>>, code: seq<seq<byte>>)
    requires IsBlockCipher(e, |c|)
    requires Joined(code) == Session(e, c, [], plain).0
    ensures Session(e, c, [], code) == (Joined(plain), Session(e, c, [], plain).1)
  {
    SessionIsOneFlush(e, c, [], plain);
    SessionIsOneFlush(e, c, [], code);
    assert [] + Joined(plain) == Joined(plain) && [] + Joined(code) == Joined(code);
    CtrTwice(e, c, Joined(plain));
  }

  lemma CutBack(was: seq<byte>, block: seq<byte>, len: nat)
    requires len <= |block|
    ensures (was + block)[..|was + block| - (|block| - len)] == was + block[..len]
  {
  }

  /** Increment has come to byte I of WAS: the bytes before it have turned over to 0. */
  ghost predicate Carrying(was: seq<byte>, now: seq<byte>, i: nat) {
    i <= |was| == |now| && now[i..] == was[i..] && Increment(was) == now[..i] + Increment(was[i..])
  }

  lemma CarryOn(was: seq<byte>, now: seq<byte>, i: nat)
    requires i < |now| && Carrying(was, now, i)
    ensures now[i] < 255 ==> now[i := now[i] + 1] == Increment(was)
    ensures now[i] == 255 ==> Carrying(was, now[i := 0], i + 1)
  {
    assert was[i] == was[i..][0] == now[i..][0] == now[i];
    assert was[i..][1..] == was[i + 1..] && now[i + 1..] == now[i..][1..];
  }

  /** DONE bytes of key, in whole blocks, and the counter NOW after them. */
  ghost predicate Made(e: Cipher, first: seq<byte>, done: nat, key: seq<byte>, now: seq<byte>) {
    && IsBlockCipher(e, |first|) && Odd(done, |first|) == 0
    && key == KeyStream(e, first, done) && now == Advance(first, Blocks(done, |first|))
  }

  /** One more block, or the beginning of one. */
  lemma MoreKey(e: Cipher, first: seq<byte>, done: nat, key: seq<byte>, now: seq<byte>, more: nat)
    requires Made(e, first, done, key, now) && 0 < more <= |first|
    ensures KeyStream(e, first, done + more) == key + e(now)[..more]
    ensures Increment(now) == Advance(first, Blocks(done + more, |first|))
    ensures more == |first| ==> Made(e, first, done + more, key + e(now), Increment(now))
  {
    KeySplit(e, first, done, more);
    BlocksAdd(done, more, |first|);
    OddAdd(done, more, |first|);
    assert e(now)[..|first|] == e(now);
  }

  /** The same for the end of the data, behind what was in the buffer before. */
  lemma LastKey(e: Cipher, first: seq<byte>, done: nat, now: seq<byte>, more: nat, was: seq<byte>)
    requires IsBlockCipher(e, |first|) && 0 < more <= |first|
    requires Made(e, first, done, KeyStream(e, first, done), now)
    ensures was + KeyStream(e, first, done) + e(now)[..more] == was + KeyStream(e, first, done + more)
    ensures Increment(now) == Advance(first, Blocks(done + more, |first|))
  {
    MoreKey(e, first, done, KeyStream(e, first, done), now, more);
    Assoc(was, KeyStream(e, first, done), e(now)[..more]);
  }

  lemma {:induction false} OddAdd(len: nat, more: nat, n: nat)
    requires n > 0 && Odd(len, n) == 0
    ensures Odd(len + more, n) == Odd(more, n)
    decreases len
  {
    if len > 0 {
      OddAdd(len - n, more, n);
    }
  }
}

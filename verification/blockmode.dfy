/** The ECB and CBC block modes over Mini-AES, on hex strings with zero-fill padding.
    Every sequence function here is defined on a prefix plus its last element, the
    order in which the mode loops build their output. */
module BlockMode {
  import opened GaloisField
  import opened Transforms
  import opened Encoding
  import opened Cipher

  /** n copies of the digit '0'. */
  function Zeros(n: nat): (z: string)
    ensures |z| == n && forall i :: 0 <= i < n ==> z[i] == '0'
  {
    seq(n, _ => '0')
  }

  /** Zero-fill to a whole number of 4-digit blocks. */
  function PadMessage(m: string): (r: string)
    ensures |r| % 4 == 0 && |m| <= |r| < |m| + 4
    ensures r[..|m|] == m
    ensures forall i :: |m| <= i < |r| ==> r[i] == '0'
    ensures |m| % 4 == 0 ==> r == m
    ensures IsHexString(m) ==> IsHexString(r)
  {
    if |m| % 4 != 0 then m + Zeros(4 - |m| % 4) else m
  }

  lemma PadMessageIdempotent(m: string)
    ensures PadMessage(PadMessage(m)) == PadMessage(m)
  {
  }

  /** Upper-casing commutes with the padding, since the padding digit has no case. */
  lemma UpperPadMessage(m: string)
    ensures Upper(PadMessage(m)) == PadMessage(Upper(m))
  {
  }

  lemma UpperAppend(a: string, b: string)
    ensures Upper(a + b) == Upper(a) + Upper(b)
  {
  }

  /** Every block of an aligned hex string, each read as a state. */
  function Blocks(h: string): (bs: seq<State>)
    requires |h| % 4 == 0 && IsHexString(h)
    ensures 4 * |bs| == |h|
  {
    if |h| == 0 then []
    else
      assert IsHexString(h[..|h| - 4]) && IsHexString(h[|h| - 4..]);
      Blocks(h[..|h| - 4]) + [ParseState(h[|h| - 4..])]
  }

  /** The states printed one after another, each as four upper-case hex digits. */
  function ToHex(bs: seq<State>): (h: string)
    ensures |h| == 4 * |bs| && IsHexString(h)
  {
    if |bs| == 0 then "" else ToHex(bs[..|bs| - 1]) + StateToHex(bs[|bs| - 1])
  }

  /** Reading back printed states gives the states. */
  lemma {:induction false} BlocksToHex(bs: seq<State>)
    ensures Blocks(ToHex(bs)) == bs
  {
    if |bs| > 0 {
      var init, last := bs[..|bs| - 1], bs[|bs| - 1];
      var h := ToHex(bs);
      BlocksToHex(init);
      assert h[..|h| - 4] == ToHex(init);
      assert h[|h| - 4..] == StateToHex(last);
      assert StateToHex(last)[..4] == StateToHex(last);
      ParseStateToHex(last);
    }
  }

  /** Printing the states read from a hex string gives the string in upper case. */
  lemma {:induction false} ToHexBlocks(h: string)
    requires |h| % 4 == 0 && IsHexString(h)
    ensures ToHex(Blocks(h)) == Upper(h)
  {
    if |h| > 0 {
      var init, last := h[..|h| - 4], h[|h| - 4..];
      assert IsHexString(init) && IsHexString(last);
      var bs := Blocks(h);
      assert bs[..|bs| - 1] == Blocks(init);
      ToHexBlocks(init);
      assert last[..4] == last;
      UpperAppend(init, last);
      assert init + last == h;
    }
  }

  // The two modes are defined over any block function, so their properties hold for
  // whatever cipher is plugged in; MiniAesEncryption and its companions below plug in
  // Mini-AES under one key.

  /** ECB: every block goes through the block function on its own. Encryption and
      decryption are the same loop with a different block function. */
  function EcbBlocks(bs: seq<State>, f: State -> State): (rs: seq<State>)
    ensures |rs| == |bs|
  {
    if |bs| == 0 then [] else EcbBlocks(bs[..|bs| - 1], f) + [f(bs[|bs| - 1])]
  }

  /** Block j of the ECB output is block j of the input through the block function. */
  lemma {:induction false} EcbBlocksAt(bs: seq<State>, f: State -> State, j: nat)
    requires j < |bs|
    ensures EcbBlocks(bs, f)[j] == f(bs[j])
  {
    var init := bs[..|bs| - 1];
    if j < |init| {
      EcbBlocksAt(init, f, j);
      assert init[j] == bs[j];
    }
  }

  /** A block of ECB output depends on the matching input block only. */
  lemma EcbBlockwise(bs: seq<State>, cs: seq<State>, f: State -> State, j: nat)
    requires j < |bs| && j < |cs| && bs[j] == cs[j]
    ensures EcbBlocks(bs, f)[j] == EcbBlocks(cs, f)[j]
  {
    EcbBlocksAt(bs, f, j);
    EcbBlocksAt(cs, f, j);
  }

  /** When g undoes f block by block, ECB under g undoes ECB under f. */
  lemma EcbBlocksRoundTrip(bs: seq<State>, f: State -> State, g: State -> State)
    requires forall x :: g(f(x)) == x
    ensures EcbBlocks(EcbBlocks(bs, f), g) == bs
  {
    forall j | 0 <= j < |bs|
      ensures EcbBlocks(EcbBlocks(bs, f), g)[j] == bs[j]
    {
      EcbBlocksAt(bs, f, j);
      EcbBlocksAt(EcbBlocks(bs, f), g, j);
    }
  }

  /** The block XORed into the next one: the IV before the first block, then the last
      ciphertext block. */
  function Chain(cs: seq<State>, iv: State): State
  {
    if |cs| == 0 then iv else cs[|cs| - 1]
  }

  /** CBC encryption: each block is XORed with the previous output block (the IV for
      the first), then encrypted; CbcEncryptBlockAt states it block by block. */
  function CbcEncryptBlocks(ps: seq<State>, enc: State -> State, iv: State): (cs: seq<State>)
    ensures |cs| == |ps|
  {
    if |ps| == 0 then []
    else
      var prefix := CbcEncryptBlocks(ps[..|ps| - 1], enc, iv);
      prefix + [enc(Xor(ps[|ps| - 1], Chain(prefix, iv)))]
  }

  /** Block j of the CBC output is block j of the input, XORed with output block j - 1
      (the IV for the first), then encrypted. */
  lemma {:induction false} CbcEncryptBlockAt(ps: seq<State>, enc: State -> State, iv: State, j: nat)
    requires j < |ps|
    ensures CbcEncryptBlocks(ps, enc, iv)[j] ==
              enc(Xor(ps[j], if j == 0 then iv else CbcEncryptBlocks(ps, enc, iv)[j - 1]))
  {
    var init := ps[..|ps| - 1];
    var cs, prefix := CbcEncryptBlocks(ps, enc, iv), CbcEncryptBlocks(init, enc, iv);
    assert cs == prefix + [enc(Xor(ps[|ps| - 1], Chain(prefix, iv)))];
    if j < |init| {
      CbcEncryptBlockAt(init, enc, iv, j);
      assert init[j] == ps[j] && cs[j] == prefix[j];
      if j > 0 {
        assert cs[j - 1] == prefix[j - 1];
      }
    }
  }

  /** CBC decryption: each block is decrypted, then XORed with the previous INPUT block
      (the IV for the first); CbcDecryptBlockAt states it block by block. */
  function CbcDecryptBlocks(cs: seq<State>, dec: State -> State, iv: State): (ps: seq<State>)
    ensures |ps| == |cs|
  {
    if |cs| == 0 then []
    else
      var init := cs[..|cs| - 1];
      CbcDecryptBlocks(init, dec, iv) + [Xor(dec(cs[|cs| - 1]), Chain(init, iv))]
  }

  /** Block j of the CBC plaintext is input block j decrypted, then XORed with input
      block j - 1 (the IV for the first). */
  lemma {:induction false} CbcDecryptBlockAt(cs: seq<State>, dec: State -> State, iv: State, j: nat)
    requires j < |cs|
    ensures CbcDecryptBlocks(cs, dec, iv)[j] == Xor(dec(cs[j]), if j == 0 then iv else cs[j - 1])
  {
    var init := cs[..|cs| - 1];
    if j < |init| {
      CbcDecryptBlockAt(init, dec, iv, j);
      assert init[j] == cs[j];
      if j > 0 {
        assert init[j - 1] == cs[j - 1];
      }
    }
  }

  /** Block j of the CBC round trip: decrypting c_j gives p_j XOR prev, and XORing
      with the same prev removes it. */
  lemma CbcBlockRoundTrip(ps: seq<State>, enc: State -> State, dec: State -> State, iv: State, j: nat)
    requires forall x :: dec(enc(x)) == x
    requires j < |ps|
    ensures CbcDecryptBlocks(CbcEncryptBlocks(ps, enc, iv), dec, iv)[j] == ps[j]
  {
    var cs := CbcEncryptBlocks(ps, enc, iv);
    var prev := if j == 0 then iv else cs[j - 1];
    CbcEncryptBlockAt(ps, enc, iv, j);
    CbcDecryptBlockAt(cs, dec, iv, j);
    XorInverse(ps[j], prev);
  }

  /** When dec undoes enc block by block, CBC decryption under dec undoes CBC
      encryption under enc with the same IV. */
  lemma CbcBlocksRoundTrip(ps: seq<State>, enc: State -> State, dec: State -> State, iv: State)
    requires forall x :: dec(enc(x)) == x
    ensures CbcDecryptBlocks(CbcEncryptBlocks(ps, enc, iv), dec, iv) == ps
  {
    forall j | 0 <= j < |ps|
      ensures CbcDecryptBlocks(CbcEncryptBlocks(ps, enc, iv), dec, iv)[j] == ps[j]
    {
      CbcBlockRoundTrip(ps, enc, dec, iv, j);
    }
  }

  /** The other direction: when enc undoes dec block by block, CBC encryption of a CBC
      decryption gives back the ciphertext, block j by induction on j. */
  lemma {:induction false} CbcBlocksInverseAt(cs: seq<State>, enc: State -> State, dec: State -> State, iv: State, j: nat)
    requires forall x :: enc(dec(x)) == x
    requires j < |cs|
    ensures CbcEncryptBlocks(CbcDecryptBlocks(cs, dec, iv), enc, iv)[j] == cs[j]
  {
    var ps := CbcDecryptBlocks(cs, dec, iv);
    var es := CbcEncryptBlocks(ps, enc, iv);
    var prev := if j == 0 then iv else cs[j - 1];
    if j > 0 {
      CbcBlocksInverseAt(cs, enc, dec, iv, j - 1);
    }
    CbcEncryptBlockAt(ps, enc, iv, j);
    CbcDecryptBlockAt(cs, dec, iv, j);
    XorInverse(dec(cs[j]), prev);
  }

  lemma CbcBlocksInverse(cs: seq<State>, enc: State -> State, dec: State -> State, iv: State)
    requires forall x :: enc(dec(x)) == x
    ensures CbcEncryptBlocks(CbcDecryptBlocks(cs, dec, iv), enc, iv) == cs
  {
    forall j | 0 <= j < |cs|
      ensures CbcEncryptBlocks(CbcDecryptBlocks(cs, dec, iv), enc, iv)[j] == cs[j]
    {
      CbcBlocksInverseAt(cs, enc, dec, iv, j);
    }
  }

  /** With the all-zero IV the first CBC block is the first ECB block. */
  lemma CbcZeroIvFirstBlock(ps: seq<State>, enc: State -> State)
    requires |ps| > 0
    ensures CbcEncryptBlocks(ps, enc, ZeroState)[0] == EcbBlocks(ps, enc)[0]
  {
    CbcEncryptBlockAt(ps, enc, ZeroState, 0);
    EcbBlocksAt(ps, enc, 0);
    XorZero(ps[0]);
  }

  /** The blocks CBC encryption hands to the cipher: each plaintext block XORed with the
      previous ciphertext block (the IV for the first). */
  function CbcInputs(ps: seq<State>, enc: State -> State, iv: State): (xs: seq<State>)
    ensures |xs| == |ps|
  {
    if |ps| == 0 then []
    else
      var init := ps[..|ps| - 1];
      CbcInputs(init, enc, iv) + [Xor(ps[|ps| - 1], Chain(CbcEncryptBlocks(init, enc, iv), iv))]
  }

  /** Cipher input j is plaintext block j XORed with ciphertext block j - 1 (or the IV),
      and ciphertext block j is its encryption. */
  lemma {:induction false} CbcInputsAt(ps: seq<State>, enc: State -> State, iv: State, j: nat)
    requires j < |ps|
    ensures CbcInputs(ps, enc, iv)[j] == Xor(ps[j], if j == 0 then iv else CbcEncryptBlocks(ps, enc, iv)[j - 1])
    ensures CbcEncryptBlocks(ps, enc, iv)[j] == enc(CbcInputs(ps, enc, iv)[j])
  {
    var init := ps[..|ps| - 1];
    var cs, prefix := CbcEncryptBlocks(ps, enc, iv), CbcEncryptBlocks(init, enc, iv);
    assert cs == prefix + [enc(Xor(ps[|ps| - 1], Chain(prefix, iv)))];
    if j < |init| {
      CbcInputsAt(init, enc, iv, j);
      assert init[j] == ps[j] && cs[j] == prefix[j];
      if j > 0 {
        assert cs[j - 1] == prefix[j - 1];
      }
    }
    CbcEncryptBlockAt(ps, enc, iv, j);
  }

  /** The log a mode returns for one block: its 1-based number and the cipher's trace. */
  datatype BlockLog = BlockLog(index: nat, entries: seq<LogEntry>)

  /** One trace per block, numbered from 1. */
  function BlockLogs(bs: seq<State>, trace: State -> seq<LogEntry>): (logs: seq<BlockLog>)
    ensures |logs| == |bs|
  {
    if |bs| == 0 then [] else BlockLogs(bs[..|bs| - 1], trace) + [BlockLog(|bs|, trace(bs[|bs| - 1]))]
  }

  /** Log j is the trace of block j, numbered j + 1. */
  lemma {:induction false} BlockLogsAt(bs: seq<State>, trace: State -> seq<LogEntry>, j: nat)
    requires j < |bs|
    ensures BlockLogs(bs, trace)[j] == BlockLog(j + 1, trace(bs[j]))
  {
    var init := bs[..|bs| - 1];
    var logs, prefix := BlockLogs(bs, trace), BlockLogs(init, trace);
    assert logs == prefix + [BlockLog(|bs|, trace(bs[|bs| - 1]))];
    if j < |init| {
      BlockLogsAt(init, trace, j);
      assert init[j] == bs[j] && logs[j] == prefix[j];
    }
  }

  // One more block at the end extends each mode's output by that block's result.

  lemma ToHexSnoc(bs: seq<State>, b: State)
    ensures ToHex(bs + [b]) == ToHex(bs) + StateToHex(b)
  {
    assert (bs + [b])[..|bs|] == bs;
  }

  lemma EcbBlocksSnoc(bs: seq<State>, x: State, f: State -> State)
    ensures EcbBlocks(bs + [x], f) == EcbBlocks(bs, f) + [f(x)]
  {
    assert (bs + [x])[..|bs|] == bs;
  }

  lemma CbcEncryptSnoc(ps: seq<State>, x: State, enc: State -> State, iv: State)
    ensures CbcEncryptBlocks(ps + [x], enc, iv) ==
              CbcEncryptBlocks(ps, enc, iv) + [enc(Xor(x, Chain(CbcEncryptBlocks(ps, enc, iv), iv)))]
    ensures CbcInputs(ps + [x], enc, iv) ==
              CbcInputs(ps, enc, iv) + [Xor(x, Chain(CbcEncryptBlocks(ps, enc, iv), iv))]
  {
    assert (ps + [x])[..|ps|] == ps;
  }

  lemma CbcDecryptSnoc(cs: seq<State>, x: State, dec: State -> State, iv: State)
    ensures CbcDecryptBlocks(cs + [x], dec, iv) == CbcDecryptBlocks(cs, dec, iv) + [Xor(dec(x), Chain(cs, iv))]
  {
    assert (cs + [x])[..|cs|] == cs;
  }

  lemma BlockLogsSnoc(bs: seq<State>, x: State, trace: State -> seq<LogEntry>)
    ensures BlockLogs(bs + [x], trace) == BlockLogs(bs, trace) + [BlockLog(|bs| + 1, trace(x))]
  {
    assert (bs + [x])[..|bs|] == bs;
  }

  // One iteration of each mode loop: given the output and logs for the first n blocks
  // and the cipher's results for block n, the extended output and logs are those of the
  // first n + 1 blocks.

  lemma EcbStep(bs: seq<State>, n: nat, f: State -> State, trace: State -> seq<LogEntry>,
                out: string, logs: seq<BlockLog>, x: State, y: State, entries: seq<LogEntry>)
    requires n < |bs| && x == bs[n] && y == f(x) && entries == trace(x)
    requires out == ToHex(EcbBlocks(bs[..n], f)) && logs == BlockLogs(bs[..n], trace)
    ensures out + StateToHex(y) == ToHex(EcbBlocks(bs[..n + 1], f))
    ensures logs + [BlockLog(n + 1, entries)] == BlockLogs(bs[..n + 1], trace)
  {
    TakeSnoc(bs, n);
    EcbBlocksSnoc(bs[..n], x, f);
    BlockLogsSnoc(bs[..n], x, trace);
    ToHexSnoc(EcbBlocks(bs[..n], f), y);
  }

  lemma CbcEncryptStep(ps: seq<State>, n: nat, enc: State -> State, iv: State, trace: State -> seq<LogEntry>,
                       out: string, logs: seq<BlockLog>, prev: State, x: State, y: State, entries: seq<LogEntry>)
    requires n < |ps| && prev == Chain(CbcEncryptBlocks(ps[..n], enc, iv), iv)
    requires x == Xor(ps[n], prev) && y == enc(x) && entries == trace(x)
    requires out == ToHex(CbcEncryptBlocks(ps[..n], enc, iv)) && logs == BlockLogs(CbcInputs(ps[..n], enc, iv), trace)
    ensures y == Chain(CbcEncryptBlocks(ps[..n + 1], enc, iv), iv)
    ensures out + StateToHex(y) == ToHex(CbcEncryptBlocks(ps[..n + 1], enc, iv))
    ensures logs + [BlockLog(n + 1, entries)] == BlockLogs(CbcInputs(ps[..n + 1], enc, iv), trace)
  {
    TakeSnoc(ps, n);
    CbcEncryptSnoc(ps[..n], ps[n], enc, iv);
    BlockLogsSnoc(CbcInputs(ps[..n], enc, iv), x, trace);
    ToHexSnoc(CbcEncryptBlocks(ps[..n], enc, iv), y);
  }

  lemma CbcDecryptStep(cs: seq<State>, n: nat, dec: State -> State, iv: State, trace: State -> seq<LogEntry>,
                       out: string, logs: seq<BlockLog>, prev: State, x: State, y: State, entries: seq<LogEntry>)
    requires n < |cs| && prev == Chain(cs[..n], iv)
    requires x == cs[n] && y == Xor(dec(x), prev) && entries == trace(x)
    requires out == ToHex(CbcDecryptBlocks(cs[..n], dec, iv)) && logs == BlockLogs(cs[..n], trace)
    ensures x == Chain(cs[..n + 1], iv)
    ensures out + StateToHex(y) == ToHex(CbcDecryptBlocks(cs[..n + 1], dec, iv))
    ensures logs + [BlockLog(n + 1, entries)] == BlockLogs(cs[..n + 1], trace)
  {
    TakeSnoc(cs, n);
    CbcDecryptSnoc(cs[..n], x, dec, iv);
    BlockLogsSnoc(cs[..n], x, trace);
    ToHexSnoc(CbcDecryptBlocks(cs[..n], dec, iv), y);
  }

  /** Mini-AES encryption of one block under key, as a block function. */
  function MiniAesEncryption(key: State): State -> State
  {
    (p: State) => EncryptBlock(p, ExpandKey(key))
  }

  /** Mini-AES decryption of one block under key, as a block function. */
  function MiniAesDecryption(key: State): State -> State
  {
    (c: State) => DecryptBlock(c, ExpandKey(key))
  }

  /** The trace the cipher leaves when it encrypts one block under key. */
  function EncryptionTrace(key: State): State -> seq<LogEntry>
  {
    (p: State) => EncryptLog(p, key)
  }

  /** The trace the cipher leaves when it decrypts one block under key. */
  function DecryptionTrace(key: State): State -> seq<LogEntry>
  {
    (c: State) => DecryptLog(c, key)
  }

  /** Under one key, Mini-AES decryption and encryption undo each other. */
  lemma MiniAesInverse(key: State)
    ensures forall x :: MiniAesDecryption(key)(MiniAesEncryption(key)(x)) == x
    ensures forall x :: MiniAesEncryption(key)(MiniAesDecryption(key)(x)) == x
  {
    forall x
      ensures MiniAesDecryption(key)(MiniAesEncryption(key)(x)) == x
      ensures MiniAesEncryption(key)(MiniAesDecryption(key)(x)) == x
    {
      RoundTrip(x, x, key);
    }
  }

  /** A key or IV argument: its first four characters are hex digits; the rest are ignored. */
  predicate IsKeyText(k: string)
  {
    |k| >= 4 && IsHexString(k[..4])
  }

  /** An argument to decryption: hex digits, whole blocks only. */
  predicate IsBlockText(h: string)
  {
    |h| % 4 == 0 && IsHexString(h)
  }

  function EcbEncryptHex(m: string, keyHex: string): string
    requires IsHexString(m) && IsKeyText(keyHex)
  {
    ToHex(EcbBlocks(Blocks(PadMessage(m)), MiniAesEncryption(ParseState(keyHex))))
  }

  function EcbDecryptHex(c: string, keyHex: string): string
    requires IsBlockText(c) && IsKeyText(keyHex)
  {
    ToHex(EcbBlocks(Blocks(c), MiniAesDecryption(ParseState(keyHex))))
  }

  function CbcEncryptHex(m: string, keyHex: string, ivHex: string): string
    requires IsHexString(m) && IsKeyText(keyHex) && IsKeyText(ivHex)
  {
    ToHex(CbcEncryptBlocks(Blocks(PadMessage(m)), MiniAesEncryption(ParseState(keyHex)), ParseState(ivHex)))
  }

  function CbcDecryptHex(c: string, keyHex: string, ivHex: string): string
    requires IsBlockText(c) && IsKeyText(keyHex) && IsKeyText(ivHex)
  {
    ToHex(CbcDecryptBlocks(Blocks(c), MiniAesDecryption(ParseState(keyHex)), ParseState(ivHex)))
  }

  /** ECB output is the padded length, and decrypting it gives the padded message in
      upper case. */
  lemma EcbRoundTrip(m: string, keyHex: string)
    requires IsHexString(m) && IsKeyText(keyHex)
    ensures |EcbEncryptHex(m, keyHex)| == |PadMessage(m)|
    ensures EcbDecryptHex(EcbEncryptHex(m, keyHex), keyHex) == Upper(PadMessage(m))
  {
    var ps := Blocks(PadMessage(m));
    var key := ParseState(keyHex);
    BlocksToHex(EcbBlocks(ps, MiniAesEncryption(key)));
    MiniAesInverse(key);
    EcbBlocksRoundTrip(ps, MiniAesEncryption(key), MiniAesDecryption(key));
    ToHexBlocks(PadMessage(m));
  }

  /** Encrypting an ECB decryption gives back the ciphertext in upper case: whole
      blocks need no padding. */
  lemma EcbInverse(c: string, keyHex: string)
    requires IsBlockText(c) && IsKeyText(keyHex)
    ensures EcbEncryptHex(EcbDecryptHex(c, keyHex), keyHex) == Upper(c)
  {
    var key := ParseState(keyHex);
    var ps := EcbBlocks(Blocks(c), MiniAesDecryption(key));
    BlocksToHex(ps);
    MiniAesInverse(key);
    EcbBlocksRoundTrip(Blocks(c), MiniAesDecryption(key), MiniAesEncryption(key));
    ToHexBlocks(c);
  }

  /** CBC output is the padded length, and decrypting it with the same key and IV gives
      the padded message in upper case. */
  lemma CbcRoundTrip(m: string, keyHex: string, ivHex: string)
    requires IsHexString(m) && IsKeyText(keyHex) && IsKeyText(ivHex)
    ensures |CbcEncryptHex(m, keyHex, ivHex)| == |PadMessage(m)|
    ensures CbcDecryptHex(CbcEncryptHex(m, keyHex, ivHex), keyHex, ivHex) == Upper(PadMessage(m))
  {
    var ps := Blocks(PadMessage(m));
    var key, iv := ParseState(keyHex), ParseState(ivHex);
    BlocksToHex(CbcEncryptBlocks(ps, MiniAesEncryption(key), iv));
    MiniAesInverse(key);
    CbcBlocksRoundTrip(ps, MiniAesEncryption(key), MiniAesDecryption(key), iv);
    ToHexBlocks(PadMessage(m));
  }

  /** Encrypting a CBC decryption with the same key and IV gives back the ciphertext in
      upper case. */
  lemma CbcInverse(c: string, keyHex: string, ivHex: string)
    requires IsBlockText(c) && IsKeyText(keyHex) && IsKeyText(ivHex)
    ensures CbcEncryptHex(CbcDecryptHex(c, keyHex, ivHex), keyHex, ivHex) == Upper(c)
  {
    var key, iv := ParseState(keyHex), ParseState(ivHex);
    var ps := CbcDecryptBlocks(Blocks(c), MiniAesDecryption(key), iv);
    BlocksToHex(ps);
    MiniAesInverse(key);
    CbcBlocksInverse(Blocks(c), MiniAesEncryption(key), MiniAesDecryption(key), iv);
    ToHexBlocks(c);
  }

  /** Taking every element of a sequence gives the sequence. */
  lemma TakeAll<T>(xs: seq<T>, n: nat)
    requires n == |xs|
    ensures xs[..n] == xs
  {
  }

  /** Taking one more element of a sequence appends that element. */
  lemma TakeSnoc<T>(xs: seq<T>, n: nat)
    requires n < |xs|
    ensures xs[..n + 1] == xs[..n] + [xs[n]]
  {
  }

  /** Block k of an aligned hex string is the state read from characters 4k to 4k + 3. */
  lemma {:induction false} BlocksAt(h: string, k: nat)
    requires IsBlockText(h) && 4 * k + 4 <= |h|
    ensures IsHexString(h[4 * k..4 * k + 4]) && h[4 * k..4 * k + 4][..4] == h[4 * k..4 * k + 4]
    ensures Blocks(h)[k] == ParseState(h[4 * k..4 * k + 4])
  {
    var init := h[..|h| - 4];
    assert IsHexString(init) && IsHexString(h[|h| - 4..]);
    if 4 * k + 4 < |h| {
      BlocksAt(init, k);
      assert init[4 * k..4 * k + 4] == h[4 * k..4 * k + 4];
    }
  }

  /** The mode wrapper around one Mini-AES instance, whose round keys and log every block
      overwrites. Each mode loop counts blocks: n is the character offset divided by
      four, and the mode's log numbers the block at character offset i as i // 4 + 1,
      so block n is logged as n + 1. */
  class BlockModeMiniAES {
    const miniAes: MiniAES

    constructor()
      ensures fresh(miniAes) && miniAes.roundKeys == [] && miniAes.log == []
    {
      miniAes := new MiniAES();
    }

    /** One iteration of the ECB encryption loop: block n of the padded message is
        read, encrypted, printed after the ciphertext so far, and its trace is logged
        as block n + 1. The cipher is left with this block's trace. */
    method EcbEncryptBlock(h: string, n: nat, key: State, ciphertext: string, log: seq<BlockLog>)
      returns (ciphertext': string, log': seq<BlockLog>)
      requires IsBlockText(h) && n < |Blocks(h)|
      requires ciphertext == ToHex(EcbBlocks(Blocks(h)[..n], MiniAesEncryption(key)))
      requires log == BlockLogs(Blocks(h)[..n], EncryptionTrace(key))
      modifies miniAes
      ensures ciphertext' == ToHex(EcbBlocks(Blocks(h)[..n + 1], MiniAesEncryption(key)))
      ensures log' == BlockLogs(Blocks(h)[..n + 1], EncryptionTrace(key))
      ensures |log'| > 0 && miniAes.log == log'[|log'| - 1].entries && miniAes.roundKeys == ExpandKey(key)
    {
      BlocksAt(h, n);
      var blockState := ParseState(h[4 * n..4 * n + 4]);
      var encryptedBlock := miniAes.Encrypt(blockState, key);
      EcbStep(Blocks(h), n, MiniAesEncryption(key), EncryptionTrace(key), ciphertext, log, blockState, encryptedBlock, miniAes.log);
      ciphertext' := ciphertext + StateToHex(encryptedBlock);
      log' := log + [BlockLog(n + 1, miniAes.log)];
    }

    /** ECB encryption of a hex message: pad it, then encrypt each block on its own,
        printing the ciphertext and keeping each block's trace. The cipher is left
        with the last block's trace, or untouched when there is no block. */
    method EcbEncrypt(plaintextHex: string, keyHex: string) returns (ciphertext: string, log: seq<BlockLog>)
      requires IsHexString(plaintextHex) && IsKeyText(keyHex)
      modifies miniAes
      ensures ciphertext == EcbEncryptHex(plaintextHex, keyHex)
      ensures log == BlockLogs(Blocks(PadMessage(plaintextHex)), EncryptionTrace(ParseState(keyHex)))
      ensures |log| > 0 ==> miniAes.log == log[|log| - 1].entries && miniAes.roundKeys == ExpandKey(ParseState(keyHex))
      ensures |log| == 0 ==> miniAes.log == old(miniAes.log) && miniAes.roundKeys == old(miniAes.roundKeys)
    {
      var paddedPlaintext := PadMessage(plaintextHex);
      var keyState := ParseState(keyHex);
      ghost var blocks := Blocks(paddedPlaintext);
      ciphertext := "";
      log := [];
      var n := 0;
      while 4 * n < |paddedPlaintext|
        invariant n <= |blocks|
        invariant ciphertext == ToHex(EcbBlocks(blocks[..n], MiniAesEncryption(keyState)))
        invariant log == BlockLogs(blocks[..n], EncryptionTrace(keyState))
        invariant |log| > 0 ==> miniAes.log == log[|log| - 1].entries && miniAes.roundKeys == ExpandKey(keyState)
        invariant |log| == 0 ==> miniAes.log == old(miniAes.log) && miniAes.roundKeys == old(miniAes.roundKeys)
      {
        ciphertext, log := EcbEncryptBlock(paddedPlaintext, n, keyState, ciphertext, log);
        n := n + 1;
      }
      TakeAll(blocks, n);
    }

    /** One iteration of the ECB decryption loop: block n of the ciphertext is read,
        decrypted, printed after the plaintext so far, and its trace is logged as
        block n + 1. The cipher is left with this block's trace. */
    method EcbDecryptBlock(h: string, n: nat, key: State, plaintext: string, log: seq<BlockLog>)
      returns (plaintext': string, log': seq<BlockLog>)
      requires IsBlockText(h) && n < |Blocks(h)|
      requires plaintext == ToHex(EcbBlocks(Blocks(h)[..n], MiniAesDecryption(key)))
      requires log == BlockLogs(Blocks(h)[..n], DecryptionTrace(key))
      modifies miniAes
      ensures plaintext' == ToHex(EcbBlocks(Blocks(h)[..n + 1], MiniAesDecryption(key)))
      ensures log' == BlockLogs(Blocks(h)[..n + 1], DecryptionTrace(key))
      ensures |log'| > 0 && miniAes.log == log'[|log'| - 1].entries && miniAes.roundKeys == ExpandKey(key)
    {
      BlocksAt(h, n);
      var blockState := ParseState(h[4 * n..4 * n + 4]);
      var decryptedBlock := miniAes.Decrypt(blockState, key);
      EcbStep(Blocks(h), n, MiniAesDecryption(key), DecryptionTrace(key), plaintext, log, blockState, decryptedBlock, miniAes.log);
      plaintext' := plaintext + StateToHex(decryptedBlock);
      log' := log + [BlockLog(n + 1, miniAes.log)];
    }

    /** ECB decryption of whole blocks of hex: each block decrypted on its own. */
    method EcbDecrypt(ciphertextHex: string, keyHex: string) returns (plaintext: string, log: seq<BlockLog>)
      requires IsBlockText(ciphertextHex) && IsKeyText(keyHex)
      modifies miniAes
      ensures plaintext == EcbDecryptHex(ciphertextHex, keyHex)
      ensures log == BlockLogs(Blocks(ciphertextHex), DecryptionTrace(ParseState(keyHex)))
      ensures |log| > 0 ==> miniAes.log == log[|log| - 1].entries && miniAes.roundKeys == ExpandKey(ParseState(keyHex))
      ensures |log| == 0 ==> miniAes.log == old(miniAes.log) && miniAes.roundKeys == old(miniAes.roundKeys)
    {
      var keyState := ParseState(keyHex);
      ghost var blocks := Blocks(ciphertextHex);
      plaintext := "";
      log := [];
      var n := 0;
      while 4 * n < |ciphertextHex|
        invariant n <= |blocks|
        invariant plaintext == ToHex(EcbBlocks(blocks[..n], MiniAesDecryption(keyState)))
        invariant log == BlockLogs(blocks[..n], DecryptionTrace(keyState))
        invariant |log| > 0 ==> miniAes.log == log[|log| - 1].entries && miniAes.roundKeys == ExpandKey(keyState)
        invariant |log| == 0 ==> miniAes.log == old(miniAes.log) && miniAes.roundKeys == old(miniAes.roundKeys)
      {
        plaintext, log := EcbDecryptBlock(ciphertextHex, n, keyState, plaintext, log);
        n := n + 1;
      }
      TakeAll(blocks, n);
    }

    /** One iteration of the CBC encryption loop: block n of the padded message is
        read, XORed with the previous ciphertext block prev, encrypted, printed after
        the ciphertext so far, and the trace of the XORed block is logged as block
        n + 1. The encrypted block is returned as the next prev. */
    method CbcEncryptBlock(h: string, n: nat, key: State, iv: State, prev: State, ciphertext: string, log: seq<BlockLog>)
      returns (prev': State, ciphertext': string, log': seq<BlockLog>)
      requires IsBlockText(h) && n < |Blocks(h)|
      requires prev == Chain(CbcEncryptBlocks(Blocks(h)[..n], MiniAesEncryption(key), iv), iv)
      requires ciphertext == ToHex(CbcEncryptBlocks(Blocks(h)[..n], MiniAesEncryption(key), iv))
      requires log == BlockLogs(CbcInputs(Blocks(h)[..n], MiniAesEncryption(key), iv), EncryptionTrace(key))
      modifies miniAes
      ensures prev' == Chain(CbcEncryptBlocks(Blocks(h)[..n + 1], MiniAesEncryption(key), iv), iv)
      ensures ciphertext' == ToHex(CbcEncryptBlocks(Blocks(h)[..n + 1], MiniAesEncryption(key), iv))
      ensures log' == BlockLogs(CbcInputs(Blocks(h)[..n + 1], MiniAesEncryption(key), iv), EncryptionTrace(key))
      ensures |log'| > 0 && miniAes.log == log'[|log'| - 1].entries && miniAes.roundKeys == ExpandKey(key)
    {
      BlocksAt(h, n);
      var blockState := ParseState(h[4 * n..4 * n + 4]);
      var xoredBlock := Xor(blockState, prev);
      var encryptedBlock := miniAes.Encrypt(xoredBlock, key);
      CbcEncryptStep(Blocks(h), n, MiniAesEncryption(key), iv, EncryptionTrace(key), ciphertext, log,
                     prev, xoredBlock, encryptedBlock, miniAes.log);
      prev' := encryptedBlock;
      ciphertext' := ciphertext + StateToHex(encryptedBlock);
      log' := log + [BlockLog(n + 1, miniAes.log)];
    }

    /** CBC encryption of a hex message: pad it, then XOR each block with the previous
        ciphertext block (the IV first) and encrypt it. Each block's trace is that of
        the XORed block. */
    method CbcEncrypt(plaintextHex: string, keyHex: string, ivHex: string) returns (ciphertext: string, log: seq<BlockLog>)
      requires IsHexString(plaintextHex) && IsKeyText(keyHex) && IsKeyText(ivHex)
      modifies miniAes
      ensures ciphertext == CbcEncryptHex(plaintextHex, keyHex, ivHex)
      ensures log == BlockLogs(CbcInputs(Blocks(PadMessage(plaintextHex)), MiniAesEncryption(ParseState(keyHex)), ParseState(ivHex)),
                               EncryptionTrace(ParseState(keyHex)))
      ensures |log| > 0 ==> miniAes.log == log[|log| - 1].entries && miniAes.roundKeys == ExpandKey(ParseState(keyHex))
      ensures |log| == 0 ==> miniAes.log == old(miniAes.log) && miniAes.roundKeys == old(miniAes.roundKeys)
    {
      var paddedPlaintext := PadMessage(plaintextHex);
      var keyState := ParseState(keyHex);
      var ivState := ParseState(ivHex);
      ghost var blocks := Blocks(paddedPlaintext);
      ciphertext := "";
      log := [];
      var prevBlock := ivState;
      var n := 0;
      while 4 * n < |paddedPlaintext|
        invariant n <= |blocks|
        invariant prevBlock == Chain(CbcEncryptBlocks(blocks[..n], MiniAesEncryption(keyState), ivState), ivState)
        invariant ciphertext == ToHex(CbcEncryptBlocks(blocks[..n], MiniAesEncryption(keyState), ivState))
        invariant log == BlockLogs(CbcInputs(blocks[..n], MiniAesEncryption(keyState), ivState), EncryptionTrace(keyState))
        invariant |log| > 0 ==> miniAes.log == log[|log| - 1].entries && miniAes.roundKeys == ExpandKey(keyState)
        invariant |log| == 0 ==> miniAes.log == old(miniAes.log) && miniAes.roundKeys == old(miniAes.roundKeys)
      {
        prevBlock, ciphertext, log := CbcEncryptBlock(paddedPlaintext, n, keyState, ivState, prevBlock, ciphertext, log);
        n := n + 1;
      }
      TakeAll(blocks, n);
    }

    /** One iteration of the CBC decryption loop: block n of the ciphertext is read and
        saved, decrypted, XORed with the previous ciphertext block prev, printed after
        the plaintext so far, and its trace is logged as block n + 1. The saved
        ciphertext block is returned as the next prev. */
    method CbcDecryptBlock(h: string, n: nat, key: State, iv: State, prev: State, plaintext: string, log: seq<BlockLog>)
      returns (prev': State, plaintext': string, log': seq<BlockLog>)
      requires IsBlockText(h) && n < |Blocks(h)|
      requires prev == Chain(Blocks(h)[..n], iv)
      requires plaintext == ToHex(CbcDecryptBlocks(Blocks(h)[..n], MiniAesDecryption(key), iv))
      requires log == BlockLogs(Blocks(h)[..n], DecryptionTrace(key))
      modifies miniAes
      ensures prev' == Chain(Blocks(h)[..n + 1], iv)
      ensures plaintext' == ToHex(CbcDecryptBlocks(Blocks(h)[..n + 1], MiniAesDecryption(key), iv))
      ensures log' == BlockLogs(Blocks(h)[..n + 1], DecryptionTrace(key))
      ensures |log'| > 0 && miniAes.log == log'[|log'| - 1].entries && miniAes.roundKeys == ExpandKey(key)
    {
      BlocksAt(h, n);
      var blockState := ParseState(h[4 * n..4 * n + 4]);
      var currentBlock := blockState;
      var decryptedBlock := miniAes.Decrypt(blockState, key);
      var plaintextBlock := Xor(decryptedBlock, prev);
      CbcDecryptStep(Blocks(h), n, MiniAesDecryption(key), iv, DecryptionTrace(key), plaintext, log,
                     prev, blockState, plaintextBlock, miniAes.log);
      prev' := currentBlock;
      plaintext' := plaintext + StateToHex(plaintextBlock);
      log' := log + [BlockLog(n + 1, miniAes.log)];
    }

    /** CBC decryption of whole blocks of hex: decrypt each block, then XOR it with the
        previous ciphertext block (the IV first), saved before the block is decrypted. */
    method CbcDecrypt(ciphertextHex: string, keyHex: string, ivHex: string) returns (plaintext: string, log: seq<BlockLog>)
      requires IsBlockText(ciphertextHex) && IsKeyText(keyHex) && IsKeyText(ivHex)
      modifies miniAes
      ensures plaintext == CbcDecryptHex(ciphertextHex, keyHex, ivHex)
      ensures log == BlockLogs(Blocks(ciphertextHex), DecryptionTrace(ParseState(keyHex)))
      ensures |log| > 0 ==> miniAes.log == log[|log| - 1].entries && miniAes.roundKeys == ExpandKey(ParseState(keyHex))
      ensures |log| == 0 ==> miniAes.log == old(miniAes.log) && miniAes.roundKeys == old(miniAes.roundKeys)
    {
      var keyState := ParseState(keyHex);
      var ivState := ParseState(ivHex);
      ghost var blocks := Blocks(ciphertextHex);
      plaintext := "";
      log := [];
      var prevBlock := ivState;
      var n := 0;
      while 4 * n < |ciphertextHex|
        invariant n <= |blocks|
        invariant prevBlock == Chain(blocks[..n], ivState)
        invariant plaintext == ToHex(CbcDecryptBlocks(blocks[..n], MiniAesDecryption(keyState), ivState))
        invariant log == BlockLogs(blocks[..n], DecryptionTrace(keyState))
        invariant |log| > 0 ==> miniAes.log == log[|log| - 1].entries && miniAes.roundKeys == ExpandKey(keyState)
        invariant |log| == 0 ==> miniAes.log == old(miniAes.log) && miniAes.roundKeys == old(miniAes.roundKeys)
      {
        prevBlock, plaintext, log := CbcDecryptBlock(ciphertextHex, n, keyState, ivState, prevBlock, plaintext, log);
        n := n + 1;
      }
      TakeAll(blocks, n);
    }
  }
}

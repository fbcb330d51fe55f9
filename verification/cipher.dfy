/** The Mini-AES block cipher: the key schedule, the three encryption rounds and their
    mirror, and the cipher object that records a trace of every step. */
module Cipher {
  import opened GaloisField
  import opened Transforms

  /** The round constants, one per generated round key, XORed into its first nibble. */
  const Rcon: seq<Nibble> := [0x1, 0x2, 0x4]

  /** The previous key with its two halves exchanged: [p2, p3, p0, p1]. */
  function RotateNibbles(k: State): State
  {
    [k[2], k[3], k[0], k[1]]
  }

  /** The round key that follows prev under round constant rcon. */
  function NextRoundKey(prev: State, rcon: Nibble): State
  {
    var substituted := SubNibbles(RotateNibbles(prev));
    Xor(prev, substituted[0 := substituted[0] ^ rcon])
  }

  /** Nibble i of the next key is nibble i of prev XOR the substituted nibble i of the
      rotated key; only the first nibble also takes the round constant. */
  lemma NextRoundKeyNibble(prev: State, rcon: Nibble, i: nat)
    requires i < 4
    ensures NextRoundKey(prev, rcon)[i] ==
      prev[i] ^ (if i == 0 then SBox[RotateNibbles(prev)[i]] ^ rcon else SBox[RotateNibbles(prev)[i]])
  {
    if i == 0 {} else {}
  }

  /** NextRoundKey written as the key schedule's steps: rotate, substitute, add the
      round constant to the first nibble, XOR with prev. */
  lemma NextRoundKeySteps(prev: State, rcon: Nibble, rotated: State, substituted: State)
    requires rotated == [prev[2], prev[3], prev[0], prev[1]]
    requires substituted == SubNibbles(rotated)[0 := SubNibbles(rotated)[0] ^ rcon]
    ensures Xor(prev, substituted) == NextRoundKey(prev, rcon)
  {
  }

  /** The first n + 1 round keys generated from key. */
  function RoundKeys(key: State, n: nat): (ks: seq<State>)
    requires n <= 3
    ensures |ks| == n + 1 && ks[0] == key
    ensures forall i :: 0 <= i < n ==> ks[i + 1] == NextRoundKey(ks[i], Rcon[i])
  {
    if n == 0 then [key]
    else
      var prefix := RoundKeys(key, n - 1);
      prefix + [NextRoundKey(prefix[n - 1], Rcon[n - 1])]
  }

  /** The four round keys: the master key and three generated ones. */
  function ExpandKey(key: State): (ks: seq<State>)
    ensures |ks| == 4 && ks[0] == key
    ensures forall i :: 0 <= i < 3 ==> ks[i + 1] == NextRoundKey(ks[i], Rcon[i])
  {
    RoundKeys(key, 3)
  }

  /** The schedule of the all-zero key. */
  lemma ExpandKeyZero()
    ensures ExpandKey([0, 0, 0, 0]) == [[0x0, 0x0, 0x0, 0x0], [0x8, 0x9, 0x9, 0x9],
                                        [0x8, 0xB, 0xF, 0xB], [0xB, 0x8, 0x9, 0x8]]
  {
    var ks := ExpandKey([0, 0, 0, 0]);
    NextRoundKeyNibble(ks[0], Rcon[0], 0);
    NextRoundKeyNibble(ks[0], Rcon[0], 1);
    NextRoundKeyNibble(ks[0], Rcon[0], 2);
    NextRoundKeyNibble(ks[0], Rcon[0], 3);
    StatesEqual(ks[1], [0x8, 0x9, 0x9, 0x9]);
    NextRoundKeyNibble(ks[1], Rcon[1], 0);
    NextRoundKeyNibble(ks[1], Rcon[1], 1);
    NextRoundKeyNibble(ks[1], Rcon[1], 2);
    NextRoundKeyNibble(ks[1], Rcon[1], 3);
    StatesEqual(ks[2], [0x8, 0xB, 0xF, 0xB]);
    NextRoundKeyNibble(ks[2], Rcon[2], 0);
    NextRoundKeyNibble(ks[2], Rcon[2], 1);
    NextRoundKeyNibble(ks[2], Rcon[2], 2);
    NextRoundKeyNibble(ks[2], Rcon[2], 3);
    StatesEqual(ks[3], [0xB, 0x8, 0x9, 0x8]);
  }

  /** The first generated round key of master key C9D2 is 3310. */
  lemma ExpandKeyFirstRoundKey()
    ensures ExpandKey([0xC, 0x9, 0xD, 0x2])[1] == [0x3, 0x3, 0x1, 0x0]
  {
    var ks := ExpandKey([0xC, 0x9, 0xD, 0x2]);
    NextRoundKeyNibble(ks[0], Rcon[0], 0);
    NextRoundKeyNibble(ks[0], Rcon[0], 1);
    NextRoundKeyNibble(ks[0], Rcon[0], 2);
    NextRoundKeyNibble(ks[0], Rcon[0], 3);
    StatesEqual(ks[1], [0x3, 0x3, 0x1, 0x0]);
  }

  // The rounds of FFFF under key 0000, one lemma per round on the values the schedule of
  // 0000 produces.

  lemma VectorRound1()
    ensures Round([0xF, 0xF, 0xF, 0xF], [0x8, 0x9, 0x9, 0x9]) == [0x0, 0x1, 0x1, 0x1]
  {
    StatesEqual(SubShift([0xF, 0xF, 0xF, 0xF]), [0x7, 0x7, 0x7, 0x7]);
    MixColumnsByRows([0x7, 0x7, 0x7, 0x7]);
    StatesEqual(Round([0xF, 0xF, 0xF, 0xF], [0x8, 0x9, 0x9, 0x9]), [0x0, 0x1, 0x1, 0x1]);
  }

  lemma VectorRound2()
    ensures Round([0x0, 0x1, 0x1, 0x1], [0x8, 0xB, 0xF, 0xB]) == [0x2, 0xC, 0x9, 0xC]
  {
    StatesEqual(SubShift([0x0, 0x1, 0x1, 0x1]), [0x9, 0x4, 0x4, 0x4]);
    MixColumnsByRows([0x9, 0x4, 0x4, 0x4]);
    StatesEqual(Round([0x0, 0x1, 0x1, 0x1], [0x8, 0xB, 0xF, 0xB]), [0x2, 0xC, 0x9, 0xC]);
  }

  lemma VectorFinalRound()
    ensures FinalRound([0x2, 0xC, 0x9, 0xC], [0xB, 0x8, 0x9, 0x8]) == [0x1, 0x4, 0x5, 0xA]
  {
    StatesEqual(FinalRound([0x2, 0xC, 0x9, 0xC], [0xB, 0x8, 0x9, 0x8]), [0x1, 0x4, 0x5, 0xA]);
  }

  /** Plaintext FFFF under key 0000 encrypts to 145A. */
  lemma EncryptVector()
    ensures EncryptBlock([0xF, 0xF, 0xF, 0xF], ExpandKey([0, 0, 0, 0])) == [0x1, 0x4, 0x5, 0xA]
  {
    var ks := ExpandKey([0, 0, 0, 0]);
    ExpandKeyZero();
    StatesEqual(MainRounds([0xF, 0xF, 0xF, 0xF], ks, 0), [0xF, 0xF, 0xF, 0xF]);
    VectorRound1();
    VectorRound2();
    VectorFinalRound();
  }

  /** SubNibbles then ShiftRows, the first half of every encryption round. */
  function SubShift(s: State): State
  {
    ShiftRows(SubNibbles(s))
  }

  /** Inverse ShiftRows then inverse SubNibbles, the first half of every decryption round. */
  function InvShiftSub(s: State): State
  {
    InvSubNibbles(InvShiftRows(s))
  }

  lemma SubShiftInverse(s: State)
    ensures InvShiftSub(SubShift(s)) == s
    ensures SubShift(InvShiftSub(s)) == s
  {
    ShiftRowsInverse(SubNibbles(s));
    SubNibblesInverse(s);
    ShiftRowsInverse(s);
    SubNibblesInverse(InvShiftRows(s));
  }

  /** A full encryption round (rounds 1 and 2). */
  function Round(s: State, k: State): State
  {
    Xor(MixColumns(SubShift(s)), k)
  }

  /** The last encryption round, which has no MixColumns. */
  function FinalRound(s: State, k: State): State
  {
    Xor(SubShift(s), k)
  }

  /** A full decryption round: the key is added before the inverse MixColumns. */
  function InvRound(s: State, k: State): State
  {
    InvMixColumns(Xor(InvShiftSub(s), k))
  }

  /** The last decryption round, which has no inverse MixColumns. */
  function InvFinalRound(s: State, k: State): State
  {
    Xor(InvShiftSub(s), k)
  }

  /** The state after the initial key addition and the first n full rounds. */
  function MainRounds(p: State, ks: seq<State>, n: nat): State
    requires |ks| == 4 && n <= 2
  {
    if n == 0 then Xor(p, ks[0]) else Round(MainRounds(p, ks, n - 1), ks[n])
  }

  /** Encryption of p under the round keys ks. */
  function EncryptBlock(p: State, ks: seq<State>): State
    requires |ks| == 4
  {
    FinalRound(MainRounds(p, ks, 2), ks[3])
  }

  /** The state after the initial key addition and the first n full decryption rounds;
      decryption round n uses round key 3 - n. */
  function InvMainRounds(c: State, ks: seq<State>, n: nat): State
    requires |ks| == 4 && n <= 2
  {
    if n == 0 then Xor(c, ks[3]) else InvRound(InvMainRounds(c, ks, n - 1), ks[3 - n])
  }

  /** Decryption of c under the round keys ks. */
  function DecryptBlock(c: State, ks: seq<State>): State
    requires |ks| == 4
  {
    InvFinalRound(InvMainRounds(c, ks, 2), ks[0])
  }

  /** A decryption round takes the output of an encryption round under the same key,
      seen after SubShift, back to SubShift of its input. */
  lemma InvRoundUndoesRound(s: State, k: State)
    ensures InvRound(SubShift(Round(s, k)), k) == SubShift(s)
  {
    SubShiftInverse(Round(s, k));
    XorInverse(MixColumns(SubShift(s)), k);
    MixColumnsInverse(SubShift(s));
  }

  /** An encryption round takes the output of a decryption round under the same key,
      seen after InvShiftSub, back to InvShiftSub of its input. */
  lemma RoundUndoesInvRound(t: State, k: State)
    ensures Round(InvShiftSub(InvRound(t, k)), k) == InvShiftSub(t)
  {
    var u := Xor(InvShiftSub(t), k);
    SubShiftInverse(InvRound(t, k));
    MixColumnsInverse(u);
    XorInverse(InvShiftSub(t), k);
  }

  /** Decryption undoes encryption under any four round keys. */
  lemma {:induction false} DecryptEncryptBlock(p: State, ks: seq<State>)
    requires |ks| == 4
    ensures DecryptBlock(EncryptBlock(p, ks), ks) == p
  {
    var s0 := MainRounds(p, ks, 0);
    var s1 := MainRounds(p, ks, 1);
    var s2 := MainRounds(p, ks, 2);
    XorInverse(SubShift(s2), ks[3]);
    assert InvMainRounds(EncryptBlock(p, ks), ks, 0) == SubShift(s2);
    InvRoundUndoesRound(s1, ks[2]);
    assert InvMainRounds(EncryptBlock(p, ks), ks, 1) == SubShift(s1);
    InvRoundUndoesRound(s0, ks[1]);
    assert InvMainRounds(EncryptBlock(p, ks), ks, 2) == SubShift(s0);
    SubShiftInverse(s0);
    XorInverse(p, ks[0]);
  }

  /** Encryption undoes decryption under any four round keys. */
  lemma {:induction false} EncryptDecryptBlock(c: State, ks: seq<State>)
    requires |ks| == 4
    ensures EncryptBlock(DecryptBlock(c, ks), ks) == c
  {
    var t0 := InvMainRounds(c, ks, 0);
    var t1 := InvMainRounds(c, ks, 1);
    var t2 := InvMainRounds(c, ks, 2);
    var p := DecryptBlock(c, ks);
    XorInverse(InvShiftSub(t2), ks[0]);
    assert MainRounds(p, ks, 0) == InvShiftSub(t2);
    RoundUndoesInvRound(t1, ks[1]);
    assert MainRounds(p, ks, 1) == InvShiftSub(t1);
    RoundUndoesInvRound(t0, ks[2]);
    assert MainRounds(p, ks, 2) == InvShiftSub(t0);
    SubShiftInverse(t0);
    XorInverse(c, ks[3]);
  }

  /** One line of the cipher's trace. The wording of the lines is not modelled; each
      entry records which step it reports and the value it shows. */
  datatype LogEntry =
    | Plaintext(state: State)
    | Ciphertext(state: State)
    | Key(state: State)
    | KeyExpansionHeading
    | RoundKeyLine(index: nat, key: State)
    | InitialAddRoundKey(state: State)
    | RoundHeading(round: nat)
    | FinalRoundHeading
    | AfterSubNibbles(state: State)
    | AfterShiftRows(state: State)
    | AfterMixColumns(state: State)
    | AfterAddRoundKey(state: State)
    | AfterInvShiftRows(state: State)
    | AfterInvSubNibbles(state: State)
    | AfterInvMixColumns(state: State)
    | FinalCiphertext(state: State)
    | RecoveredPlaintext(state: State)

  // Each trace function below takes the log written so far and extends it at its end,
  // one line at a time, in the order the cipher writes the lines.

  /** The log after the key schedule of key has written its lines for round keys 1..n. */
  function KeyScheduleLog(log: seq<LogEntry>, key: State, n: nat): (r: seq<LogEntry>)
    requires n <= 3
    ensures |r| == |log| + n
    ensures r[..|log|] == log
  {
    if n == 0 then log else KeyScheduleLog(log, key, n - 1) + [RoundKeyLine(n, RoundKeys(key, n)[n])]
  }

  /** The log after encryption round n, entered with state s and using round key k. */
  function RoundLog(log: seq<LogEntry>, s: State, k: State, n: nat): (r: seq<LogEntry>)
    ensures |r| == |log| + 5
    ensures r[..|log|] == log
  {
    log + [RoundHeading(n)] + [AfterSubNibbles(SubNibbles(s))] + [AfterShiftRows(SubShift(s))] +
    [AfterMixColumns(MixColumns(SubShift(s)))] + [AfterAddRoundKey(Round(s, k))]
  }

  /** The log after the first n full encryption rounds of p. */
  function MainRoundsLog(log: seq<LogEntry>, p: State, ks: seq<State>, n: nat): (r: seq<LogEntry>)
    requires |ks| == 4 && n <= 2
    ensures |r| == |log| + 5 * n
    ensures r[..|log|] == log
  {
    if n == 0 then log else RoundLog(MainRoundsLog(log, p, ks, n - 1), MainRounds(p, ks, n - 1), ks[n], n)
  }

  /** The log after decryption round n, entered with state t and using round key k. */
  function InvRoundLog(log: seq<LogEntry>, t: State, k: State, n: nat): (r: seq<LogEntry>)
    ensures |r| == |log| + 5
    ensures r[..|log|] == log
  {
    log + [RoundHeading(n)] + [AfterInvShiftRows(InvShiftRows(t))] + [AfterInvSubNibbles(InvShiftSub(t))] +
    [AfterAddRoundKey(Xor(InvShiftSub(t), k))] + [AfterInvMixColumns(InvRound(t, k))]
  }

  /** The log after the first n full decryption rounds of c. */
  function InvMainRoundsLog(log: seq<LogEntry>, c: State, ks: seq<State>, n: nat): (r: seq<LogEntry>)
    requires |ks| == 4 && n <= 2
    ensures |r| == |log| + 5 * n
    ensures r[..|log|] == log
  {
    if n == 0 then log
    else InvRoundLog(InvMainRoundsLog(log, c, ks, n - 1), InvMainRounds(c, ks, n - 1), ks[3 - n], n)
  }

  /** The log both directions write before the rounds: the input, the key and the key
      schedule, ending with the initial key addition. */
  function PreambleLog(input: LogEntry, key: State, initial: State): seq<LogEntry>
  {
    KeyScheduleLog([input] + [Key(key)] + [KeyExpansionHeading] + [RoundKeyLine(0, key)], key, 3) +
    [InitialAddRoundKey(initial)]
  }

  /** The whole trace of one encryption. */
  function EncryptLog(p: State, key: State): seq<LogEntry>
  {
    var ks := ExpandKey(key);
    var s := MainRounds(p, ks, 2);
    MainRoundsLog(PreambleLog(Plaintext(p), key, MainRounds(p, ks, 0)), p, ks, 2) +
    [FinalRoundHeading] + [AfterSubNibbles(SubNibbles(s))] + [AfterShiftRows(SubShift(s))] +
    [AfterAddRoundKey(FinalRound(s, ks[3]))] + [FinalCiphertext(EncryptBlock(p, ks))]
  }

  /** The whole trace of one decryption. */
  function DecryptLog(c: State, key: State): seq<LogEntry>
  {
    var ks := ExpandKey(key);
    var t := InvMainRounds(c, ks, 2);
    InvMainRoundsLog(PreambleLog(Ciphertext(c), key, InvMainRounds(c, ks, 0)), c, ks, 2) +
    [FinalRoundHeading] + [AfterInvShiftRows(InvShiftRows(t))] + [AfterInvSubNibbles(InvShiftSub(t))] +
    [AfterAddRoundKey(DecryptBlock(c, ks))] + [RecoveredPlaintext(DecryptBlock(c, ks))]
  }

  /** The preamble has 8 lines and opens with the input. */
  lemma PreambleShape(input: LogEntry, key: State, initial: State)
    ensures |PreambleLog(input, key, initial)| == 8
    ensures PreambleLog(input, key, initial)[0] == input
  {
    var head := [input] + [Key(key)] + [KeyExpansionHeading] + [RoundKeyLine(0, key)];
    var schedule := KeyScheduleLog(head, key, 3);
    assert schedule[..|head|] == head;
    assert schedule[0] == schedule[..|head|][0];
  }

  /** The three lines the key schedule appends report round keys 1, 2 and 3 of the
      schedule, in order. */
  lemma KeyScheduleLines(log: seq<LogEntry>, key: State)
    ensures KeyScheduleLog(log, key, 3)[|log|] == RoundKeyLine(1, ExpandKey(key)[1])
    ensures KeyScheduleLog(log, key, 3)[|log| + 1] == RoundKeyLine(2, ExpandKey(key)[2])
    ensures KeyScheduleLog(log, key, 3)[|log| + 2] == RoundKeyLine(3, ExpandKey(key)[3])
  {
    var s1 := KeyScheduleLog(log, key, 1);
    var s2 := KeyScheduleLog(log, key, 2);
    var s3 := KeyScheduleLog(log, key, 3);
    assert s3[|log|] == s2[|log|] == s1[|log|] == RoundKeyLine(1, RoundKeys(key, 1)[1]);
    assert s3[|log| + 1] == s2[|log| + 1] == RoundKeyLine(2, RoundKeys(key, 2)[2]);
    var ks := ExpandKey(key);
    assert RoundKeys(key, 1)[1] == NextRoundKey(key, Rcon[0]) == ks[1];
    assert RoundKeys(key, 2)[2] == NextRoundKey(ks[1], Rcon[1]) == ks[2];
  }

  /** The key schedule keeps every line written before it. */
  lemma KeyScheduleKeeps(log: seq<LogEntry>, key: State, i: nat)
    requires i < |log|
    ensures KeyScheduleLog(log, key, 3)[i] == log[i]
  {
    var r := KeyScheduleLog(log, key, 3);
    assert r[i] == r[..|log|][i];
  }

  /** Lines 1 to 7 of the preamble: the key, the schedule heading, round keys 0 to 3 of
      the key's schedule in order, and the initial key addition. */
  lemma PreambleLines(input: LogEntry, key: State, initial: State)
    ensures PreambleLog(input, key, initial)[1] == Key(key)
    ensures PreambleLog(input, key, initial)[2] == KeyExpansionHeading
    ensures PreambleLog(input, key, initial)[3] == RoundKeyLine(0, ExpandKey(key)[0])
    ensures PreambleLog(input, key, initial)[4] == RoundKeyLine(1, ExpandKey(key)[1])
    ensures PreambleLog(input, key, initial)[5] == RoundKeyLine(2, ExpandKey(key)[2])
    ensures PreambleLog(input, key, initial)[6] == RoundKeyLine(3, ExpandKey(key)[3])
    ensures PreambleLog(input, key, initial)[7] == InitialAddRoundKey(initial)
  {
    var head := [input] + [Key(key)] + [KeyExpansionHeading] + [RoundKeyLine(0, key)];
    KeyScheduleKeeps(head, key, 1);
    KeyScheduleKeeps(head, key, 2);
    KeyScheduleKeeps(head, key, 3);
    KeyScheduleLines(head, key);
  }

  /** An encryption trace has 23 lines: 4 before the schedule, 3 from it, the initial
      key addition, 5 per full round, 4 for the final round and the ciphertext. It
      opens with the plaintext and closes with the ciphertext. */
  lemma EncryptLogShape(p: State, key: State)
    ensures |EncryptLog(p, key)| == 23
    ensures EncryptLog(p, key)[0] == Plaintext(p)
    ensures EncryptLog(p, key)[22] == FinalCiphertext(EncryptBlock(p, ExpandKey(key)))
  {
    var ks := ExpandKey(key);
    var preamble := PreambleLog(Plaintext(p), key, MainRounds(p, ks, 0));
    PreambleShape(Plaintext(p), key, MainRounds(p, ks, 0));
    var rounds := MainRoundsLog(preamble, p, ks, 2);
    assert rounds[0] == rounds[..|preamble|][0];
  }

  /** A decryption trace has the same 23-line shape. It opens with the ciphertext and
      closes with the recovered plaintext. */
  lemma DecryptLogShape(c: State, key: State)
    ensures |DecryptLog(c, key)| == 23
    ensures DecryptLog(c, key)[0] == Ciphertext(c)
    ensures DecryptLog(c, key)[22] == RecoveredPlaintext(DecryptBlock(c, ExpandKey(key)))
  {
    var ks := ExpandKey(key);
    var preamble := PreambleLog(Ciphertext(c), key, InvMainRounds(c, ks, 0));
    PreambleShape(Ciphertext(c), key, InvMainRounds(c, ks, 0));
    var rounds := InvMainRoundsLog(preamble, c, ks, 2);
    assert rounds[0] == rounds[..|preamble|][0];
  }

  /** The cipher object. round_keys holds the schedule of the last key expanded; log
      holds the trace of the last encryption or decryption. */
  class MiniAES {
    var roundKeys: seq<State>
    var log: seq<LogEntry>

    constructor()
      ensures roundKeys == [] && log == []
    {
      roundKeys := [];
      log := [];
    }

    method AppendLog(entry: LogEntry)
      modifies this
      ensures log == old(log) + [entry] && roundKeys == old(roundKeys)
    {
      log := log + [entry];
    }

    method ClearLog()
      modifies this
      ensures log == [] && roundKeys == old(roundKeys)
    {
      log := [];
    }

    /** Replaces the stored schedule with the four round keys of key, and appends one
        line per generated key. */
    method KeyExpansion(key: State) returns (ks: seq<State>)
      modifies this
      ensures ks == ExpandKey(key) && roundKeys == ks
      ensures log == KeyScheduleLog(old(log), key, 3)
    {
      roundKeys := [key];
      for i := 0 to 3
        invariant roundKeys == RoundKeys(key, i)
        invariant log == KeyScheduleLog(old(log), key, i)
      {
        var prevKey := roundKeys[i];
        var rotated := [prevKey[2], prevKey[3], prevKey[0], prevKey[1]];
        var substituted := SubNibbles(rotated);
        substituted := substituted[0 := substituted[0] ^ Rcon[i]];
        var newKey := Xor(prevKey, substituted);
        NextRoundKeySteps(prevKey, Rcon[i], rotated, substituted);
        roundKeys := roundKeys + [newKey];
        AppendLog(RoundKeyLine(i + 1, newKey));
      }
      ks := roundKeys;
    }

    /** Encrypts plaintext under key. The log is cleared first and then holds exactly
        the trace of this encryption. */
    method Encrypt(plaintext: State, key: State) returns (c: State)
      modifies this
      ensures c == EncryptBlock(plaintext, ExpandKey(key))
      ensures roundKeys == ExpandKey(key)
      ensures log == EncryptLog(plaintext, key)
    {
      ClearLog();
      AppendLog(Plaintext(plaintext));
      AppendLog(Key(key));
      AppendLog(KeyExpansionHeading);
      AppendLog(RoundKeyLine(0, key));
      assert log == [Plaintext(plaintext)] + [Key(key)] + [KeyExpansionHeading] + [RoundKeyLine(0, key)];
      var ks := KeyExpansion(key);
      var state := Xor(plaintext, ks[0]);
      AppendLog(InitialAddRoundKey(state));
      ghost var before := log;
      assert before == PreambleLog(Plaintext(plaintext), key, state);
      var i := 1;
      while i < 3
        invariant 1 <= i <= 3
        invariant roundKeys == ks
        invariant state == MainRounds(plaintext, ks, i - 1)
        invariant log == MainRoundsLog(before, plaintext, ks, i - 1)
      {
        AppendLog(RoundHeading(i));
        state := SubNibbles(state);
        AppendLog(AfterSubNibbles(state));
        state := ShiftRows(state);
        AppendLog(AfterShiftRows(state));
        state := MultiplyMatrix(MixColMatrix, state);
        AppendLog(AfterMixColumns(state));
        state := Xor(state, ks[i]);
        AppendLog(AfterAddRoundKey(state));
        i := i + 1;
      }
      AppendLog(FinalRoundHeading);
      state := SubNibbles(state);
      AppendLog(AfterSubNibbles(state));
      state := ShiftRows(state);
      AppendLog(AfterShiftRows(state));
      state := Xor(state, ks[3]);
      AppendLog(AfterAddRoundKey(state));
      AppendLog(FinalCiphertext(state));
      c := state;
    }

    /** Decrypts ciphertext under key. The log is cleared first and then holds exactly
        the trace of this decryption. */
    method Decrypt(ciphertext: State, key: State) returns (p: State)
      modifies this
      ensures p == DecryptBlock(ciphertext, ExpandKey(key))
      ensures roundKeys == ExpandKey(key)
      ensures log == DecryptLog(ciphertext, key)
    {
      ClearLog();
      AppendLog(Ciphertext(ciphertext));
      AppendLog(Key(key));
      AppendLog(KeyExpansionHeading);
      AppendLog(RoundKeyLine(0, key));
      assert log == [Ciphertext(ciphertext)] + [Key(key)] + [KeyExpansionHeading] + [RoundKeyLine(0, key)];
      var ks := KeyExpansion(key);
      var state := Xor(ciphertext, ks[3]);
      AppendLog(InitialAddRoundKey(state));
      ghost var before := log;
      assert before == PreambleLog(Ciphertext(ciphertext), key, state);
      var i := 2;
      while i > 0
        invariant 0 <= i <= 2
        invariant roundKeys == ks
        invariant state == InvMainRounds(ciphertext, ks, 2 - i)
        invariant log == InvMainRoundsLog(before, ciphertext, ks, 2 - i)
      {
        AppendLog(RoundHeading(3 - i));
        state := InvShiftRows(state);
        AppendLog(AfterInvShiftRows(state));
        state := InvSubNibbles(state);
        AppendLog(AfterInvSubNibbles(state));
        state := Xor(state, ks[i]);
        AppendLog(AfterAddRoundKey(state));
        state := MultiplyMatrix(InvMixColMatrix, state);
        AppendLog(AfterInvMixColumns(state));
        i := i - 1;
      }
      AppendLog(FinalRoundHeading);
      state := InvShiftRows(state);
      AppendLog(AfterInvShiftRows(state));
      state := InvSubNibbles(state);
      AppendLog(AfterInvSubNibbles(state));
      state := Xor(state, ks[0]);
      AppendLog(AfterAddRoundKey(state));
      AppendLog(RecoveredPlaintext(state));
      p := state;
    }
  }

  /** Decrypting what Encrypt produced, under the same key, gives back the plaintext;
      encrypting what Decrypt produced gives back the ciphertext. */
  lemma RoundTrip(p: State, c: State, key: State)
    ensures DecryptBlock(EncryptBlock(p, ExpandKey(key)), ExpandKey(key)) == p
    ensures EncryptBlock(DecryptBlock(c, ExpandKey(key)), ExpandKey(key)) == c
  {
    DecryptEncryptBlock(p, ExpandKey(key));
    EncryptDecryptBlock(c, ExpandKey(key));
  }
}

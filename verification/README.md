# Mini-AES in Dafny

A model of the Mini-AES core of `mini_aes.py`, with proofs about it. Mini-AES is a teaching cipher with a 16-bit block and a 16-bit key. The block is held as four nibbles in a 2x2 grid.

The core has three parts:

- **The `MiniAES` cipher class**, covered in these modules:
  - `GaloisField`: multiplication in GF(2^4) modulo x^4 + x + 1, as the shift-and-add loop of `gf_multiply`.
  - `Transforms`: the 4-bit S-box and its inverse, ShiftRows, AddRoundKey, and MixColumns by the matrix [[1, 4], [4, 1]] with its inverse [[9, 2], [2, 9]].
  - `Cipher`: the three-round key schedule, the three-round `encrypt` and its mirror `decrypt`, and the class `MiniAES` itself. The class has the fields `roundKeys` (`round_keys`) and `log`. Every `encrypt`/`decrypt` clears `log` and then fills it step by step.
- **`hex_to_state`**, the one piece of logic in the GUI class that is modelled (module `Encoding`). Text that is not exactly four characters is rejected; otherwise each character is read as a hex digit. The module also holds the nibble/bit helpers and `state_to_hex`.
- **`BlockModeMiniAES`** (module `BlockMode`): zero-fill padding to whole 4-digit blocks, then ECB or CBC over the cipher on hex strings. Each call returns the output and one log per block.

The pure transforms are functions. The parts of the source that work step by step are methods proved against those functions:

- `gf_multiply`, with its while loop;
- the triple loop of `mix_columns`;
- `key_expansion`, `encrypt` and `decrypt`, which append to the cipher's fields;
- the four mode loops.

The ECB and CBC chaining functions are generic over the block function, so their round-trip lemmas hold for any cipher whose decryption undoes its encryption. Mini-AES under one key is then plugged in through `MiniAesEncryption` and `MiniAesDecryption`.

Two behaviours of the code shape the mode contracts:

- The mode outputs are printed with upper-case hex digits. So a mode round trip gives the padded message in upper case, not the padded message as typed.
- The mode operations read the first four characters of the key and IV and ignore the rest. They do not demand exactly four.

## Model

| member | source | states |
|---|---|---|
| GaloisField.XTime | mini_aes.py:109-111 | Defines one doubling step of gf_multiply: shift a left once, and XOR in 0x13 when bit 4 is set. |
| GaloisField.GfMul | mini_aes.py:105-113 | Defines the field product as the recursive form of the gf_multiply loop: add a when the low bit of b is set, then continue with XTime(a) and b shifted right. |
| GaloisField.GfMulIsSum | mini_aes.py:101-113 | The shift-and-add product equals the XOR of a * x^i over the set bits i of b. This is the closed form the MixColumns inverse proof works on. |
| GaloisField.LoopStep | mini_aes.py:106-112 | One pass of the loop body keeps a, b and the accumulator below 16 (a after the 0x13 reduction). It preserves acc XOR a * b and uses up one iteration. |
| GaloisField.LoopCountAtMostFour | mini_aes.py:106-112 | The loop runs at most four times for any 4-bit b. |
| GaloisField.GfMultiply | mini_aes.py:101-113 | The while loop returns the field product of a and b. It runs exactly LoopCount(b) times, at most four, which is returned as a ghost count. |
| GaloisField.GfMulZero | mini_aes.py:101-113 | The product is 0 when either factor is 0. |
| GaloisField.GfMulOne | mini_aes.py:101-113 | Multiplying by 1 on either side gives the other factor. |
| GaloisField.GfMulCommutative | mini_aes.py:101-113 | The product does not depend on the order of its factors. |
| GaloisField.GfMulSumDistributes | mini_aes.py:101-113 | The written-out product of a with b XOR c is the XOR of the products of a with b and with c. |
| GaloisField.GfMulDistributes | mini_aes.py:101-113 | The field product distributes over field addition (XOR): a * (b XOR c) == a * b XOR a * c, for all nibbles. |
| Transforms.SubNibbles | mini_aes.py:75-79 | Defines sub_nibbles: each nibble replaced by its S_BOX entry. |
| Transforms.InvSubNibbles | mini_aes.py:81-85 | Defines inv_sub_nibbles: each nibble replaced by its INV_S_BOX entry. |
| Transforms.ShiftRows | mini_aes.py:87-93 | Defines shift_rows: n0 and n1 kept, n2 and n3 exchanged. |
| Transforms.InvShiftRows | mini_aes.py:95-99 | Defines inv_shift_rows: the same exchange of n2 and n3. |
| Transforms.Xor | mini_aes.py:149-153 | Defines add_round_key: the nibble-wise XOR of state and round key. |
| Transforms.Grid | mini_aes.py:119 | Defines the reshape of the state into the 2x2 grid [[n0, n1], [n2, n3]], as at lines 119 and 137. |
| Transforms.ProductEntry | mini_aes.py:124-127 | Defines result[i][j] after the first k steps of the inner loop: the XOR of m[i][k'] * grid[k'][j] for k' < k. MultiplyMatrix's invariants are stated in it. |
| Transforms.MatrixProduct | mini_aes.py:119-130 | Defines the product of a 2x2 matrix with the state grid [[n0, n1], [n2, n3]] in GF(2^4), flattened row-major; entry (i, j) is the dot product of matrix row i with grid column j. |
| Transforms.MixColumns | mini_aes.py:115-130 | Defines mix_columns: the GF(2^4) product of [[1, 4], [4, 1]] with the state grid, flattened row-major. |
| Transforms.InvMixColumns | mini_aes.py:132-147 | Defines inv_mix_columns: the same product with [[9, 2], [2, 9]]. |
| Transforms.SBox | mini_aes.py:12-17 | Defines S_BOX, entry for entry. |
| Transforms.InvSBox | mini_aes.py:20-25 | Defines INV_S_BOX, entry for entry. |
| Transforms.MixColMatrix | mini_aes.py:28-31 | Defines the MixColumns matrix [[1, 4], [4, 1]]. |
| Transforms.InvMixColMatrix | mini_aes.py:34-37 | Defines the inverse MixColumns matrix [[9, 2], [2, 9]]. |
| Transforms.SBoxInverse | mini_aes.py:13-26 | S_BOX and INV_S_BOX undo each other in both directions, so both are permutations of 0..15. |
| Transforms.SubNibblesInverse | mini_aes.py:75-85 | inv_sub_nibbles undoes sub_nibbles on every state, and the other way round. |
| Transforms.ShiftRowsInverse | mini_aes.py:87-99 | shift_rows is its own inverse, inv_shift_rows is the same swap, and positions 0 and 1 are untouched. |
| Transforms.XorInverse | mini_aes.py:149-153 | Adding the same round key twice gives back the state. |
| Transforms.XorZero | mini_aes.py:149-153 | Adding the all-zero key (or IV) changes nothing. |
| Transforms.ProductEntryIsDot | mini_aes.py:124-127 | After both k-steps, result[i][j] is row i of the matrix times column j of the state grid. |
| Transforms.MultiplyMatrix | mini_aes.py:115-130 | The triple loop that XOR-accumulates into the 2x2 result returns the GF(2^4) matrix product, flattened row-major. inv_mix_columns (lines 132-147) is the same loop on the inverse matrix. |
| Transforms.MixThenInvMixColumn | mini_aes.py:29-38 | One column through [[1, 4], [4, 1]] and then [[9, 2], [2, 9]] comes back unchanged. |
| Transforms.InvMixThenMixColumn | mini_aes.py:29-38 | One column through [[9, 2], [2, 9]] and then [[1, 4], [4, 1]] comes back unchanged. |
| Transforms.MixColumnsInverse | mini_aes.py:115-147 | inv_mix_columns undoes mix_columns, and mix_columns undoes inv_mix_columns. |
| Encoding.NibbleToBits | mini_aes.py:56-58 | Defines nibble_to_bits: bits 3, 2, 1, 0 of n. The contract gives the length, four. |
| Encoding.BitsToNibble | mini_aes.py:60-62 | Defines bits_to_nibble: bit i weighted by 2^(3 - i). |
| Encoding.BitsRoundTrip | mini_aes.py:56-62 | bits_to_nibble undoes nibble_to_bits on every nibble, and nibble_to_bits undoes bits_to_nibble on every four bits. |
| Encoding.HexDigit | mini_aes.py:71-73 | The `{:X}` digit of a nibble is a hex digit and already upper case. |
| Encoding.DigitValue | mini_aes.py:450 | Defines `int(c, 16)` on the ASCII hex alphabet: '0'-'9' give 0-9, 'A'-'F' and 'a'-'f' give 10-15. It is also the read at lines 530 and 537. |
| Encoding.HexDigitValue | mini_aes.py:71-73 | Reading back the printed digit of a nibble gives the nibble. |
| Encoding.DigitValueHex | mini_aes.py:450 | Printing the value of a hex digit of either case gives the digit in upper case. |
| Encoding.StateToHex | mini_aes.py:71-73 | A state prints as exactly four upper-case hex digits. |
| Encoding.ParseState | mini_aes.py:530 | The state read from the first four hex characters prints back as those characters in upper case. The rest of the text is ignored. |
| Encoding.ParseStateToHex | mini_aes.py:530 | Reading back a printed state gives the state. |
| Encoding.FirstNonHex | mini_aes.py:450 | The digits are read in order: every character before the returned position is hex, and the one at it is not. |
| Encoding.HexToState | mini_aes.py:444-450 | Success exactly when the text is four hex digits, and then the state prints back as the text in upper case. A wrong length is reported as such, before any digit is read. Four characters with a non-hex one fail with the first non-hex position, FirstNonHex(h). |
| Encoding.HexToStateRoundTrip | mini_aes.py:444-450 | Reading a printed state succeeds with that state. |
| Cipher.Rcon | mini_aes.py:163 | Defines the round constants 1, 2, 4, one per generated round key. |
| Cipher.RotateNibbles | mini_aes.py:169 | Defines the rotation of the previous key: [p2, p3, p0, p1]. |
| Cipher.NextRoundKey | mini_aes.py:165-178 | Defines one step of key_expansion: the previous key XOR the S-boxed rotation of it, with the round constant added to the first nibble. |
| Cipher.NextRoundKeyNibble | mini_aes.py:165-178 | Nibble i of the next round key is the previous nibble i XOR S_BOX of the rotated key at i. Only nibble 0 also takes the round constant. |
| Cipher.NextRoundKeySteps | mini_aes.py:168-178 | Glue for MiniAES.KeyExpansion: the loop's named steps (rotate, substitute, XOR rcon into the first nibble, XOR with the previous key) compose to NextRoundKey. It restates NextRoundKey's definition and is not a further property of the schedule. |
| Cipher.RoundKeys | mini_aes.py:160-180 | After i iterations the list holds i + 1 keys. Key 0 is the master key, and each later key follows from the one before by the recurrence. |
| Cipher.ExpandKey | mini_aes.py:155-184 | Exactly four round keys: the master key, then three keys each generated from the previous one with rcon 1, 2, 4. |
| Cipher.ExpandKeyZero | mini_aes.py:155-184 | Master key 0000 expands to 0000, 8999, 8BFB, B898. |
| Cipher.ExpandKeyFirstRoundKey | mini_aes.py:155-184 | Round key 1 of master key C9D2 is 3310. |
| Cipher.Round | mini_aes.py:204-221 | Defines a full encryption round: SubNibbles, ShiftRows, MixColumns, then add the round key. |
| Cipher.FinalRound | mini_aes.py:223-236 | Defines the final encryption round: SubNibbles, ShiftRows, then add round key 3, with no MixColumns. |
| Cipher.MainRounds | mini_aes.py:199-221 | Defines the state after the initial addition of round key 0 and the first n full rounds, round i using key i. |
| Cipher.InvRound | mini_aes.py:260-277 | Defines a full decryption round: inverse ShiftRows, inverse SubNibbles, add the round key, then inverse MixColumns. |
| Cipher.InvFinalRound | mini_aes.py:279-292 | Defines the final decryption round: inverse ShiftRows, inverse SubNibbles, then add round key 0, with no inverse MixColumns. |
| Cipher.InvMainRounds | mini_aes.py:255-277 | Defines the state after the initial addition of round key 3 and the first n full decryption rounds, round n using key 3 - n. |
| Cipher.EncryptBlock | mini_aes.py:199-236 | Defines encrypt's state computation: add round key 0, two rounds of SubNibbles, ShiftRows, MixColumns and add key 1 or 2, then SubNibbles, ShiftRows and add key 3. |
| Cipher.DecryptBlock | mini_aes.py:255-292 | Defines decrypt's state computation: add round key 3, two rounds of inverse ShiftRows, inverse SubNibbles, add key 2 or 1 and inverse MixColumns, then inverse ShiftRows, inverse SubNibbles and add key 0. |
| Cipher.EncryptVector | mini_aes.py:186-240 | Plaintext FFFF under key 0000 encrypts to 145A. |
| Cipher.SubShiftInverse | mini_aes.py:264-269 | Inverse ShiftRows then inverse SubNibbles undoes SubNibbles then ShiftRows, and the other way round. |
| Cipher.InvRoundUndoesRound | mini_aes.py:264-277 | A full decryption round (inverse ShiftRows, inverse SubNibbles, add key, inverse MixColumns) under key k, applied to SubNibbles-then-ShiftRows of an encryption round's output under k, gives SubNibbles-then-ShiftRows of that round's input. This half-round offset is what the block round trip chains. |
| Cipher.RoundUndoesInvRound | mini_aes.py:207-221 | A full encryption round under key k, applied to inverse-ShiftRows-then-inverse-SubNibbles of a decryption round's output under k, gives inverse-ShiftRows-then-inverse-SubNibbles of that round's input. |
| Cipher.DecryptEncryptBlock | mini_aes.py:242-296 | Decryption with round keys 3, 2, 1, 0 undoes encryption with round keys 0, 1, 2, 3, for any four round keys. |
| Cipher.EncryptDecryptBlock | mini_aes.py:186-240 | Encryption undoes decryption for any four round keys. |
| Cipher.KeyScheduleLog | mini_aes.py:182 | The key schedule appends exactly one line per generated key and keeps the earlier lines. |
| Cipher.RoundLog | mini_aes.py:205-221 | A full encryption round appends five lines and keeps the earlier ones. |
| Cipher.MainRoundsLog | mini_aes.py:204-221 | Rounds 1 and 2 append five lines each and keep the earlier ones. |
| Cipher.InvRoundLog | mini_aes.py:261-277 | A full decryption round appends five lines and keeps the earlier ones. |
| Cipher.InvMainRoundsLog | mini_aes.py:260-277 | The two full decryption rounds append five lines each and keep the earlier ones. |
| Cipher.PreambleLog | mini_aes.py:190-201 | Defines the trace both directions write before the rounds: the input, the key, the schedule heading, round key 0, the schedule's three lines, then the initial key addition. |
| Cipher.EncryptLog | mini_aes.py:186-238 | Defines the whole trace of one encryption: the preamble, five lines per full round, four lines for the final round, then the ciphertext. |
| Cipher.DecryptLog | mini_aes.py:242-294 | Defines the whole trace of one decryption: the preamble, five lines per full decryption round, four lines for the final round, then the recovered plaintext. |
| Cipher.PreambleShape | mini_aes.py:190-201 | Before the rounds the log holds exactly eight lines, the first reporting the input. |
| Cipher.KeyScheduleLines | mini_aes.py:165-182 | The three lines the key schedule appends report round keys 1, 2 and 3 of the schedule, in that order. |
| Cipher.KeyScheduleKeeps | mini_aes.py:182 | The key schedule leaves every earlier log line in place. |
| Cipher.PreambleLines | mini_aes.py:191-201 | Lines 1 to 7 before the rounds are the key, the schedule heading, round keys 0 to 3 of the schedule in order, and the initial key addition. |
| Cipher.EncryptLogShape | mini_aes.py:186-240 | An encryption leaves exactly 23 log lines, the first reporting the plaintext and the last the ciphertext. |
| Cipher.DecryptLogShape | mini_aes.py:242-296 | A decryption leaves exactly 23 log lines, the first reporting the ciphertext and the last the recovered plaintext. |
| Cipher.MiniAES.constructor | mini_aes.py:40-42 | A new cipher has no round keys and an empty log. |
| Cipher.MiniAES.AppendLog | mini_aes.py:44-46 | The entry is added at the end of the log and nothing else changes. |
| Cipher.MiniAES.ClearLog | mini_aes.py:52-54 | The log is empty and the round keys are unchanged. |
| Cipher.MiniAES.KeyExpansion | mini_aes.py:155-184 | round_keys is overwritten with the four keys of the schedule, which are also returned. The log gains exactly the three round-key lines after what it held. |
| Cipher.MiniAES.Encrypt | mini_aes.py:186-240 | Returns the Mini-AES encryption of the plaintext. round_keys is the schedule of the key. The log was cleared and holds exactly this encryption's trace. |
| Cipher.MiniAES.Decrypt | mini_aes.py:242-296 | Returns the Mini-AES decryption of the ciphertext. round_keys is the schedule of the key. The log was cleared and holds exactly this decryption's trace. |
| Cipher.RoundTrip | mini_aes.py:186-296 | decrypt(encrypt(p, k), k) == p and encrypt(decrypt(c, k), k) == c for every block and key. |
| BlockMode.Zeros | mini_aes.py:520 | The padding is the requested number of '0' digits. |
| BlockMode.PadMessage | mini_aes.py:514-521 | The result has a multiple of 4 characters and the message as a prefix. Fewer than 4 characters are appended, all '0'. Aligned input is unchanged, and hex input stays hex. |
| BlockMode.PadMessageIdempotent | mini_aes.py:514-521 | Padding a padded message changes nothing. |
| BlockMode.UpperPadMessage | mini_aes.py:514-521 | Upper-casing and padding commute, since the padding digit has no case. |
| BlockMode.Blocks | mini_aes.py:535-537 | An aligned hex string splits into one state per four characters. |
| BlockMode.BlocksAt | mini_aes.py:536-537 | Block k is the state read from characters 4k to 4k + 3. |
| BlockMode.ToHex | mini_aes.py:543 | The output has four hex digits per block. |
| BlockMode.BlocksToHex | mini_aes.py:543 | Splitting printed output back into blocks gives the blocks. |
| BlockMode.ToHexBlocks | mini_aes.py:535-543 | Printing the blocks read from a hex string gives the string in upper case. |
| BlockMode.EcbBlocks | mini_aes.py:535-546 | ECB gives one output block per input block. |
| BlockMode.EcbBlocksAt | mini_aes.py:535-543 | Output block j is input block j through the block cipher. |
| BlockMode.EcbBlockwise | mini_aes.py:535-543 | An ECB output block depends only on the matching input block. |
| BlockMode.EcbBlocksRoundTrip | mini_aes.py:523-572 | When g undoes f on every block, ECB under g undoes ECB under f. |
| BlockMode.Chain | mini_aes.py:586-636 | Defines prev_block after the blocks cs: the IV when there are none, otherwise the last ciphertext block. This is the value set at lines 586 and 619 and updated at lines 600 and 636. |
| BlockMode.CbcEncryptBlocks | mini_aes.py:589-606 | CBC encryption gives one output block per input block. |
| BlockMode.CbcEncryptBlockAt | mini_aes.py:589-603 | c_j = encrypt(p_j XOR prev), where prev is the IV for j = 0 and c_(j-1) after that. |
| BlockMode.CbcDecryptBlocks | mini_aes.py:622-642 | CBC decryption gives one output block per input block. |
| BlockMode.CbcDecryptBlockAt | mini_aes.py:622-639 | p_j = decrypt(c_j) XOR prev, where prev is the IV for j = 0 and the saved ciphertext block c_(j-1) after that (not the recovered plaintext). |
| BlockMode.CbcBlockRoundTrip | mini_aes.py:574-644 | Block j of a CBC decryption of a CBC encryption, under the same IV, is plaintext block j. |
| BlockMode.CbcBlocksRoundTrip | mini_aes.py:574-644 | When dec undoes enc, CBC decryption undoes CBC encryption under the same IV. |
| BlockMode.CbcBlocksInverseAt | mini_aes.py:574-644 | When enc undoes dec, block j of a CBC encryption of a CBC decryption is ciphertext block j. The proof is by induction on j. |
| BlockMode.CbcBlocksInverse | mini_aes.py:574-644 | When enc undoes dec, CBC encryption undoes CBC decryption under the same IV. |
| BlockMode.CbcZeroIvFirstBlock | mini_aes.py:586-597 | With IV 0000 the first CBC ciphertext block equals the first ECB ciphertext block. |
| BlockMode.CbcInputs | mini_aes.py:594-597 | CBC hands the cipher one input per plaintext block. |
| BlockMode.CbcInputsAt | mini_aes.py:594-600 | Cipher input j is p_j XOR the previous ciphertext block (or the IV), and c_j is its encryption. |
| BlockMode.BlockLogs | mini_aes.py:546 | There is one log per block. |
| BlockMode.BlockLogsAt | mini_aes.py:546 | Log j is numbered j + 1 and holds the cipher trace of block j. |
| BlockMode.EcbStep | mini_aes.py:535-546 | One ECB iteration: output and logs for the first n blocks, extended by block n's result, are those for the first n + 1 blocks. |
| BlockMode.CbcEncryptStep | mini_aes.py:589-606 | One CBC encryption iteration extends the output and logs to n + 1 blocks. The new prev_block is the last ciphertext block. |
| BlockMode.CbcDecryptStep | mini_aes.py:622-642 | One CBC decryption iteration extends the output and logs to n + 1 blocks. The saved block becomes prev_block. |
| BlockMode.EcbEncryptHex | mini_aes.py:523-548 | Defines ecb_encrypt's ciphertext: the padded message split into blocks, each encrypted under the key's first four digits, printed in order. |
| BlockMode.EcbDecryptHex | mini_aes.py:550-572 | Defines ecb_decrypt's plaintext: each block decrypted under the key, printed in order. |
| BlockMode.CbcEncryptHex | mini_aes.py:574-608 | Defines cbc_encrypt's ciphertext: the padded message's blocks chained from the IV through XOR and encryption. |
| BlockMode.CbcDecryptHex | mini_aes.py:610-644 | Defines cbc_decrypt's plaintext: each block decrypted and XORed with the previous ciphertext block, the IV first. |
| BlockMode.MiniAesInverse | mini_aes.py:186-296 | Under one key, Mini-AES decryption undoes encryption and encryption undoes decryption, as block functions. |
| BlockMode.EcbRoundTrip | mini_aes.py:523-572 | The ECB ciphertext has the padded length. ECB decryption of it gives the padded message in upper case. |
| BlockMode.EcbInverse | mini_aes.py:523-572 | ECB encryption of an ECB decryption gives back the ciphertext in upper case. |
| BlockMode.CbcRoundTrip | mini_aes.py:574-644 | The CBC ciphertext has the padded length. CBC decryption of it with the same key and IV gives the padded message in upper case. |
| BlockMode.CbcInverse | mini_aes.py:574-644 | CBC encryption of a CBC decryption with the same key and IV gives back the ciphertext in upper case. |
| BlockMode.BlockModeMiniAES.constructor | mini_aes.py:511-512 | The mode object owns a fresh cipher with no round keys and an empty log. |
| BlockMode.BlockModeMiniAES.EcbEncryptBlock | mini_aes.py:536-546 | One loop body: block n is encrypted, printed after the output so far and logged as block n + 1. The cipher is left with its trace and schedule. |
| BlockMode.BlockModeMiniAES.EcbEncrypt | mini_aes.py:523-548 | The ciphertext is ECB over the padded message under the key. There is one log per block, holding that block's encryption trace. The cipher is left with the last block's trace, or untouched when there is no block. |
| BlockMode.BlockModeMiniAES.EcbDecryptBlock | mini_aes.py:560-570 | One loop body: block n is decrypted, printed after the output so far and logged as block n + 1. |
| BlockMode.BlockModeMiniAES.EcbDecrypt | mini_aes.py:550-572 | The plaintext is ECB decryption of the aligned ciphertext. There is one log per block, holding its decryption trace. The cipher is left as after the last block. |
| BlockMode.BlockModeMiniAES.CbcEncryptBlock | mini_aes.py:590-606 | One loop body: block n is XORed with prev_block and encrypted. The result is printed, logged with the trace of the XORed block, and becomes the next prev_block. |
| BlockMode.BlockModeMiniAES.CbcEncrypt | mini_aes.py:574-608 | The ciphertext is CBC over the padded message with the IV. Log j holds the trace of the XORed cipher input j. The cipher is left as after the last block. |
| BlockMode.BlockModeMiniAES.CbcDecryptBlock | mini_aes.py:623-642 | One loop body: block n is saved, decrypted, XORed with prev_block and printed. The saved block becomes the next prev_block. |
| BlockMode.BlockModeMiniAES.CbcDecrypt | mini_aes.py:610-644 | The plaintext is CBC decryption of the aligned ciphertext with the IV. There is one log per block, holding its decryption trace. The cipher is left as after the last block. |

## Left out

- The GUI (`MiniAESApp` apart from `hex_to_state`): the widgets, callbacks, `process`, the test-case buttons, the catch-all error display and the launcher. It is presentation and I/O.
- The "Expected Ciphertext" text of the GUI. The code never compares against it. `Cipher.EncryptVector` proves that FFFF under key 0000 encrypts to 145A, which is not the value that text shows.
- `get_log`'s newline join, the wording of each log line and the `state_to_binary` formatting. Each log line is a `LogEntry` recording which step it reports and the value it shows. A mode's per-block log is a `BlockLog` holding the block number and the cipher's entries, instead of the joined text.
- Python's `int(c, 16)` accepts more than the ASCII hex alphabet (for example other Unicode digits). The model reads only `0-9`, `A-F` and `a-f`.
- BlockMode.BlockModeMiniAES.EcbEncrypt: requires hex text and a key whose first four characters are hex. A short or non-hex key raises at line 530, before the loop, and leaves the cipher untouched. A non-hex digit in the message raises part-way through, after earlier blocks have already changed the cipher's state. Neither error path is modelled.
- BlockMode.BlockModeMiniAES.EcbDecrypt: requires a key whose first four characters are hex, and a ciphertext of whole blocks of hex. A bad key raises at line 554, before the loop, and leaves the cipher untouched. A non-hex digit or a short last block raises part-way through, after the earlier blocks were processed. Neither error path is modelled.
- BlockMode.BlockModeMiniAES.CbcEncrypt: requires hex text, and a key and IV whose first four characters are hex. A bad key or IV raises at lines 581-582, before the loop, and leaves the cipher untouched. A non-hex digit in the message raises part-way through. Neither error path is modelled.
- BlockMode.BlockModeMiniAES.CbcDecrypt: requires whole blocks of hex, and a key and IV with four hex characters first. A bad key or IV raises at lines 614-615, before the loop, and leaves the cipher untouched. A non-hex digit or a short last block raises part-way through. Neither error path is modelled.
- The unused `numpy` and `binascii` imports.
- Any claim of cryptographic strength. Zero-fill padding is ambiguous when the message itself ends in zero digits; the model keeps that behaviour.

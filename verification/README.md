# Verification of the platform layer, the build driver and the float tables

Dafny models of the parts of this library where a fast or stateful form has to agree with a simple
one, with the proofs that it does. `dafny verify dfyconfig.toml` checks everything.

- **AES-GCM** (`Gf2`, `GcmField`, `GcmX86`, `GcmArm`, `Ghash`, `GhashArm`, `CounterMode`, `Gcm`): polynomials
  over GF(2) as natural numbers, the multiplication of SP 800-38D section 6.3 as the reference, the two
  instruction-set multipliers lane by lane, aggregated GHASH, counter mode, and the one-pass loop over
  buffers that may be the same array.
- **AES** (`AesField`, `AesRounds`, `AesArm`, `Cbc`, `KeySchedule`): the round as SubBytes, ShiftRows, MixColumns with
  the S-box a parameter; the equivalent inverse cipher; CBC in place; the AESKEYGENASSIST schedule
  against the recurrence of FIPS 197 section 5.2.
- **Poly1305 and ChaCha20** (`Poly1305`, `ChaCha20`): 26-bit limbs in four 64-bit lanes with every 32- and
  64-bit wrap written out; vectors of four or eight 32-bit words with their shuffles and transposes.
- **Build driver** (`Depfile`, `StateHash`, `HashFile`, `BuildCache`, `IncrementalBuild`, `BuildHistory`,
  `BuildDriver`, `OverlappedLinks`, `LinkDriver`, `LostWrite`, `Processes`, `LinkPool`, `TestPool`): the
  file system is a map, the compiler a function of the command and the files, a child process an outcome
  settled beforehand.
- **Windows command lines** (`StringBuilder`, `WinQuote`): the printer over its growing buffer, and
  Microsoft's rules for taking a command line apart, a doubled quote inside quotes included.
- **Floating point** (`Exponents`, `FloatTables`, `Doubles`, `EiselLemire`): the generated tables of powers,
  and the decimal parser's direct step on them against the nearest double, in exact real arithmetic.
- **Semaphore** (`Semaphore`), **byte search** (`ByteSearch`).

`Powers`, `ByteDigits` and `Bytes` are shared: powers of two, quotients, byte strings and the integers
they encode.

Functions state what a component should do; the methods follow the source's loops and in-place
updates and are proved against those functions. What the functions compute is stated in turn by laws on
single bytes, words and decisions, and by the examples the standards print (`AesVectors`,
`ChaChaVectors`) or the rules imply (`QuoteVectors`).

## What the proofs found

- Adding a message limb can take an accumulator limb past the 2^27 of the comment in
  `platform/proven_sys_chacha.c` (Poly1305.LimbPassesTwo27); the products have room for 2^28, which is the
  bound proved.
- The length in a GCM tag is computed from a 32-bit counter: it is right exactly while the whole groups
  take less than 2^36 bytes, which covers everything the standard allows (Gcm.LengthsWrongAt36).
- The byte stream of the build hash has no lengths, so contents holding a zero byte and the next
  file's name can move between files unnoticed; it determines the contents of a list of files, whatever
  they hold, only for a single file. With plain text, or with unchanged sizes, it does. For an
  incremental build this matters only between equal streams: a changed object whose hash changed is
  rebuilt from whatever its bytes are.
- The exponent estimate (217706 * q) >> 16 is exact well past the table: it first fails at 643. The
  floor of doubles taken for the 64-bit powers is exact at least as far.
- A signal that fails after the permit was added can strand a sleeper; the exact condition on a run is
  given.
- The dependency reader undoes none of make's escapes, so a name with a dollar sign, a hash sign or white
  space is not read back; the exact condition is given (Depfile.DollarIsLost is one input).
- The driver ignores a hash file it could not write or delete. The old hash then stands beside the new
  output, and the wrong output is kept exactly when the sources are as they were before
  (LostWrite.KeptExactly; LostWrite.LostWriteKeepsAStaleObject is one history).

## Model

| member | source | states |
|---|---|---|
| Bytes.FromByteIs | platform/proven_sys_chacha.c:191-197 | a byte read for an integer is the number it has |
| Bytes.ToByteIs | platform/proven_sys_aes.c:518-519 | a byte stored is the number modulo 256 |
| Bytes.LittleEndianAt | platform/proven_sys_chacha.c:191-197 | byte j of a little-endian string has weight 256^j |
| Bytes.BigEndianAt | platform/proven_sys_aes.c:512-513 | byte j of a big-endian string of n has weight 256^(n-1-j) |
| GcmField.NistStepsMeaning | src/proven/crypto_aes.c:210-228 | after k of the 128 bit-steps of the SP 800-38D multiplication the state is v times the low k digits of x, scaled by 2^k, modulo the GCM polynomial |
| GcmField.NistMulIsResidue | src/proven/crypto_aes.c:210-228 | the bit-at-a-time product is the carry-less product of the operands, divided by x^127 in the field |
| GcmField.ResidueUnique | platform/proven_sys_aes.c:178-206 | a field element with that property is the only one of 128 bits |
| GcmField.ResidueLinear | platform/proven_sys_aes.c:216-226 | one reduction of an XOR of products is the XOR of their reductions, which is what aggregation rests on |
| GcmField.NistMulComm | platform/proven_sys_aes.c:208-212 | the product of section 6.3 is commutative |
| GcmField.NistMulDistributes | platform/proven_sys_aes.c:216-226 | and distributes over XOR |
| GcmField.NistMulAssoc | platform/proven_sys_aes.c:268-282 | and is associative, so powers of the hash key can be made by mixed products |
| GcmField.OneIsIdentity | src/proven/crypto_aes.c:210-228 | the string that begins with a one bit is the identity of the product |
| GcmField.TimesX | src/proven/crypto_aes.c:210-228 | multiplying by x moves every bit one place to the right and adds E1 at the left end for the one that falls off |
| GcmField.LastBitTimesX | src/proven/crypto_aes.c:210-228 | the last bit times x is E1 followed by zeros |
| GcmX86.GfProductIsMul | platform/proven_sys_aes.c:168-176 | four 64-bit carry-less products joined in two registers are the 256-bit carry-less product, with the top bit clear |
| GcmX86.ShiftOneDoubles | platform/proven_sys_aes.c:178-190 | the lane shifts and the byte moves between them double the 256-bit number, no bit lost |
| GcmX86.FoldLowMeaning | platform/proven_sys_aes.c:191-206 | the two reduction phases over 32-bit lanes divide by x^128 modulo the reflected polynomial |
| GcmX86.GfReduceIsResidue | platform/proven_sys_aes.c:178-206 | the whole reduction gives the residue of any product or XOR of products |
| GcmX86.GfMulIsNistMul | platform/proven_sys_aes.c:208-212 | the x86 multiplier is the SP 800-38D section 6.3 product on all 2^256 operand pairs |
| GcmArm.FoldTwiceIsRemainder | platform/proven_sys_aes.c:499-508 | two folds by 0x87 give the remainder modulo x^128 + x^7 + x^2 + x + 1 of any 256-bit product |
| GcmArm.ReverseDigit | platform/proven_sys_aes.c:492-509 | reversed operands hold bit i at place k-1-i |
| GcmArm.GfMulIsNistMul | platform/proven_sys_aes.c:492-509 | with the bits of the operands in opposite order the AArch64 multiplier computes the same section 6.3 product, hence the x86 one |
| Ghash.HashAppend | platform/proven_sys_aes.c:228-264 | hashing a list is hashing its second part from the hash of its first |
| Ghash.HashIsPolynomial | platform/proven_sys_aes.c:228-264 | the iteration computes y H^n + x_1 H^n + ... + x_n H in the field |
| Ghash.PowerAdd | platform/proven_sys_aes.c:268-282 | H^m times H^n is H^(m+n), whichever way the powers were made |
| Ghash.PartialStep | platform/proven_sys_aes.c:216-226 | each block of a group adds its product with the power its place needs |
| Ghash.GfFold | platform/proven_sys_aes.c:216-226 | a group of blocks under one reduction is the one-block iteration y = (y ^ x) * h over it |
| Ghash.GfFoldList | platform/proven_sys_aes.c:286-301 | the same for a list of loose blocks, eight at a time and then the remainder |
| Ghash.ListTail | platform/proven_sys_aes.c:305-322 | the last blocks listed, the final one padded with zeros, are the blocks of the padded data |
| Ghash.GfAbsorb | platform/proven_sys_aes.c:305-322 | data of any length, padded, and an extra block if there is one, are absorbed in order |
| Ghash.MakePowers | platform/proven_sys_aes.c:228-240 | the four or eight powers made for a call are h^1 up to h^width |
| Ghash.GcmPowers | platform/proven_sys_aes.c:268-282 | the stored table holds H^2 to H^8 |
| Ghash.HashBlocks | platform/proven_sys_aes.c:228-264 | for every block count and width the new y is the one-block iteration over all blocks, groups and remainder alike |
| GhashArm.LoadReversed | platform/proven_sys_aes.c:512-513 | reversing the bits of each byte and reading little-endian is the big-endian integer with its bits reversed |
| GhashArm.StoreReversed | platform/proven_sys_aes.c:518-518 | and the store undoes it |
| GhashArm.HashBlocks | platform/proven_sys_aes.c:511-519 | the AArch64 GHASH stores the bytes of the same iteration as x86 |
| CounterMode.BaseWithCounter | platform/proven_sys_aes.c:125-134 | XORing the byte-swapped counter into the block that already holds nonce and first round key is the counter block XOR the first round key |
| CounterMode.CtrXor | platform/proven_sys_aes.c:119-162 | the output is the input XOR the encryption of the counter blocks nonce || counter + i mod 2^32, for every length and width, bytes after it untouched, in place or not |
| CounterMode.FinishBlocks | platform/proven_sys_aes.c:332-343 | the last round and the XOR of a partial group write the keystream of those blocks and nothing past the length |
| CounterMode.CtrInverts | platform/proven_sys_aes.c:119-162 | counter mode is its own inverse |
| CounterMode.CounterBlockIs | platform/proven_sys_aes.c:133-133 | a counter block is the nonce in its first twelve bytes and the counter modulo 2^32 in the last four, the highest byte first |
| CounterMode.FirstCounterBlocks | platform/proven_sys_aes.c:360-366 | the block that masks the tag ends in 00 00 00 01 and the first data block in 00 00 00 02 |
| CounterMode.RoundKeyBytes | platform/proven_sys_aes.c:123-124 | round key r is bytes 16r to 16r+15 of the stored keys |
| Gcm.GroupWithHash | platform/proven_sys_aes.c:371-388 | one product a round for width rounds is the hash of the group, while the counter blocks go through the same rounds |
| Gcm.Groups | platform/proven_sys_aes.c:371-396 | lagged hashing when sealing and same-group hashing when opening both absorb every ciphertext block of the whole groups once, in order |
| Gcm.OnePass | platform/proven_sys_aes.c:352-410 | the ciphertext is that of counter mode from 2 and the tag is E(J0) XOR GHASH of padded aad, padded ciphertext and lengths, for every aad and data length, width 4 or 8, out equal to in or not; the lengths block is the one of the standard below 2^36 bytes |
| Gcm.TagIsStandard | platform/proven_sys_aes.c:352-410 | counter mode from 1 over the hash of A || 0^v || C || 0^u || lengths followed by the text gives the tag followed by the ciphertext, as section 7.1 of SP 800-38D writes it |
| Gcm.NistLengthsAre | platform/proven_sys_aes.c:400-401 | the lengths block is the number of bits of the additional data and then of the text, in eight bytes each, the highest first |
| Gcm.LengthsExact | platform/proven_sys_aes.c:400-401 | the lengths block is right if and only if the whole groups take less than 2^36 bytes, because the counter it is computed from has 32 bits |
| Gcm.LengthsWrongAt36 | platform/proven_sys_aes.c:400-401 | 2^36 bytes is the least length for which it is wrong, for every aad and width |
| Gcm.OpenUndoesSeal | platform/proven_sys_aes.c:371-405 | opening a sealed text gives the plaintext and hashes the same ciphertext |
| Gcm.SealThenOpen | platform/proven_sys_aes.c:352-410 | both calls in place on one buffer: the plaintext is back and the second tag equals the first |
| AesField.InvMixColumnUndoes | platform/proven_sys_aes.c:414-418 | InvMixColumn undoes MixColumn on every column |
| AesField.InvMixColumnPlus | platform/proven_sys_aes.c:417-417 | InvMixColumn is linear, so a round key can be passed through it beforehand |
| AesRounds.InverseRound | platform/proven_sys_aes.c:423-423 | AESDEC with the transformed key takes the state after one round back to the state before it |
| AesRounds.InverseRounds | platform/proven_sys_aes.c:422-423 | r inverse rounds with the reversed keys undo the last r rounds |
| AesRounds.DecryptUndoes | platform/proven_sys_aes.c:414-424 | the equivalent inverse cipher inverts the cipher for any S-box and its inverse, any keys and rounds |
| AesVectors.RoundExample | platform/proven_sys_aes.c:136-138 | AESENC takes the first state of appendix B of FIPS 197 to the second |
| AesVectors.LastRoundExample | platform/proven_sys_aes.c:139-143 | AESENCLAST takes its last state to its output |
| AesVectors.CipherExample | platform/proven_sys_aes.c:119-162 | with the keys of that appendix the rounds begin and end as it prints them |
| Cbc.MakeInverseKeys | platform/proven_sys_aes.c:415-418 | the key array built for a call is the round keys reversed, the middle ones through InvMixColumns |
| Cbc.CbcEncrypt | src/proven/crypto_aes.c:313-319 | encryption in place: each block XOR the one before, enciphered, the last one left in iv |
| Cbc.EncryptedBlock | src/proven/crypto_aes.c:313-319 | so each block of the buffer is the cipher of its plaintext XOR the ciphertext block before it, the first XOR the vector |
| Cbc.CbcDecrypt | platform/proven_sys_aes.c:414-431 | decryption in place is the block-wise inverse chaining of the old buffer, iv left as its last ciphertext block, trailing bytes untouched |
| Cbc.DecryptedBlock | platform/proven_sys_aes.c:421-428 | so each block of the buffer is the inverse cipher of its ciphertext XOR the ciphertext block before it |
| Cbc.UnchainUndoes | platform/proven_sys_aes.c:414-431 | decrypting what was chained gives the plaintext back, for any number of blocks |
| Cbc.EncryptThenDecrypt | platform/proven_sys_aes.c:414-431 | both calls on one buffer give back every byte of it and leave the same vector |
| AesArm.AesBlock | platform/proven_sys_aes.c:458-463 | the AArch64 rounds, which add the round key first, compute the same cipher as the x86 ones |
| AesArm.CtrXor | platform/proven_sys_aes.c:469-487 | counter mode block by block on AArch64 writes what the x86 form writes, for every length, in place or not, later bytes untouched |
| KeySchedule.LadderIsPrefixSum | platform/proven_sys_aes.c:58-65 | three shifts and XORs leave the prefix XOR of the four words |
| KeySchedule.KeyStepWords | platform/proven_sys_aes.c:58-65 | with the assist word broadcast each word is the old one XOR the new word before it |
| KeySchedule.EvenStep | platform/proven_sys_aes.c:77-79 | key_step with AESKEYGENASSIST produces the next four words of the FIPS 197 recurrence, with RotWord, SubWord and the round constant |
| KeySchedule.OddStep | platform/proven_sys_aes.c:68-75 | key_step_odd produces the four words of the 256-bit schedule that take SubWord alone |
| KeySchedule.RoundConstants | platform/proven_sys_aes.c:87-96 | the immediates 01 to 80, 1b, 36 are the powers of x |
| KeySchedule.Key256 | platform/proven_sys_aes.c:78-81 | one KEY256 step stores round keys n and n + 1, but only n at the last step |
| KeySchedule.Expand | platform/proven_sys_aes.c:83-102 | for every 16-byte key with 10 rounds and 32-byte key with 14 the stored round keys are the words of the recurrence and the bytes after them are untouched; anything else is refused with the whole buffer untouched |
| KeySchedule.StoredKey | platform/proven_sys_aes.c:83-97 | the bytes stored first are the key |
| KeySchedule.StoredLater | platform/proven_sys_aes.c:58-65 | every later byte outside the first word of a round key is the one a key length before it XOR the one four before it |
| KeySchedule.StoredRotated | platform/proven_sys_aes.c:77-79 | the first word of a round key 16n bytes in, for every n of a 16-byte key and every even n of a 32-byte one, is the old word XOR the substituted bytes of the word before it, rotated one byte to the left, XOR the round constant in the first byte |
| KeySchedule.StoredOdd | platform/proven_sys_aes.c:68-75 | for the odd round keys of a 32-byte key the word before is substituted and not rotated |
| AesVectors.Words128 | platform/proven_sys_aes.c:83-90 | the words after the key in appendix A.1 of FIPS 197 |
| AesVectors.Words256 | platform/proven_sys_aes.c:92-98 | and in appendix A.3 |
| Poly1305.ExactColumns | platform/proven_sys_chacha.c:135-166 | with the left operand below 2^28 and the right below 2^27 no 32-bit operand is cut and no 64-bit product or sum overflows, so the words are the five columns |
| Poly1305.CarryChain | platform/proven_sys_chacha.c:142-149 | the scalar carry chain keeps the value modulo 2^130 - 5 and brings limbs below 2^27 |
| Poly1305.P26Mul | platform/proven_sys_chacha.c:135-150 | the scalar product is congruent to the product of the values, limbs again below 2^27 |
| Poly1305.PMulLane | platform/proven_sys_chacha.c:155-177 | one lane of PMUL multiplies by r modulo 2^130 - 5 and its two interleaved carry chains bring limbs below 2^27 |
| Poly1305.BlockLimbsValue | platform/proven_sys_chacha.c:193-197 | the shifts and masks cut a block and its 2^128 bit into 26-bit limbs of the same value |
| Poly1305.LaneOrder | platform/proven_sys_chacha.c:189-197 | unpacking puts blocks 0, 2, 1, 3 in lanes 0, 1, 2, 3 |
| Poly1305.AddGroup | platform/proven_sys_chacha.c:193-197 | adding a group keeps limbs below 2^28 and adds each lane its block |
| Poly1305.LimbPassesTwo27 | platform/proven_sys_chacha.c:132-133 | a full message limb added to a limb just below 2^27 goes past it |
| Poly1305.FourBlocks | platform/proven_sys_chacha.c:188-208 | four steps of the one-block loop equal the lanes weighted by r^4, r^2, r^3, r in that order |
| Poly1305.GroupAdded | platform/proven_sys_chacha.c:188-198 | adding a group turns the lane invariant for the blocks before it into the one for four blocks more |
| Poly1305.GroupMultiplied | platform/proven_sys_chacha.c:199-201 | multiplying all lanes by r^4 makes the invariant ready for the next group |
| Poly1305.AllGroups | platform/proven_sys_chacha.c:188-201 | the loop keeps the lane invariant and the limb bounds for every number of groups |
| Poly1305.LanesAddUp | platform/proven_sys_chacha.c:202-211 | after the final powers the four lanes sum to the value of RFC 8439 |
| Poly1305.IterateIsHorner | platform/proven_sys_chacha.c:179-221 | the loop of RFC 8439 section 2.5, reduced at every step, is congruent to Horner without reduction |
| Poly1305.HornerIsPowerSum | platform/proven_sys_chacha.c:179-221 | and that is h r^n + m_1 r^n + ... + m_n r |
| Poly1305.Powers4 | platform/proven_sys_chacha.c:180-181 | p2, p3, p4 are congruent to the square, cube and fourth power of r |
| Poly1305.MacBlocks | platform/proven_sys_chacha.c:179-221 | for every multiple of four blocks, at least four, h becomes congruent to the RFC 8439 value of all blocks from the old h, with limbs below 2^27 again |
| Poly1305.MessageBytes | platform/proven_sys_chacha.c:189-197 | a block of the message has byte j with weight 256^j, and 2^128 added |
| Poly1305.PrimeIs | platform/proven_sys_chacha.c:179-221 | the modulus is 2^130 - 5 |
| Poly1305.LimbPlaces | platform/proven_sys_chacha.c:140-149 | the five limbs of the state have weights 1, 2^26, 2^52, 2^78, 2^104 |
| Poly1305.IterateExample | platform/proven_sys_chacha.c:179-221 | with the key of section 2.5.2 of RFC 8439 its three blocks give the accumulator printed there |
| ChaCha20.QuartersAgree | platform/proven_sys_chacha.c:32-41 | the quarter round with SSE2 shifts and half swaps, and with AVX2 byte shuffles, is the one of RFC 8439 section 2.1 |
| ChaCha20.RoundVectors | platform/proven_sys_chacha.c:57-62 | ten vector double rounds are ten double rounds in every lane |
| ChaCha20.BlockVectors | platform/proven_sys_chacha.c:53-63 | lane m holds the words of the block with the counter advanced by m mod 2^32 |
| ChaCha20.TransposeTurns | platform/proven_sys_chacha.c:44-50 | the unpacks transpose a four by four square |
| ChaCha20.TransposeAll | platform/proven_sys_chacha.c:64-66 | after the transposes vector 4g + k is words 4g to 4g+3 of block k (and of block k + 4 in the high half) |
| ChaCha20.StoreWords | platform/proven_sys_chacha.c:67-71 | each store XORs the keystream bytes of its own place and touches no other |
| ChaCha20.Xor4 | platform/proven_sys_chacha.c:52-73 | 256 bytes of keystream from the given counter are XORed, in place or not |
| ChaCha20.Xor8 | platform/proven_sys_chacha.c:95-125 | 512 bytes likewise, with the half-register permutes |
| ChaCha20.XorTail | platform/proven_sys_chacha.c:229-235 | a tail of 129 to 255 bytes is XORed with the right keystream through a zeroed buffer |
| ChaCha20.KeyByteFrom | platform/proven_sys_chacha.c:223-227 | advancing the counter by whole blocks shifts the keystream by 64 bytes each |
| ChaCha20.XorStream | platform/proven_sys_chacha.c:223-237 | the first `done` bytes are the input XOR the keystream of blocks counter, counter + 1, ... mod 2^32, done is len or a multiple of 64 at most 128 short of it, and later bytes are untouched |
| ChaCha20.KeystreamWord | platform/proven_sys_chacha.c:67-71 | bytes 64k+4j to 64k+4j+3 of the keystream are word j of block k, the lowest byte first |
| ChaCha20.CounterExample | platform/proven_sys_chacha.c:54-56 | the counter wraps at 2^32 and reaches no other word |
| ChaChaVectors.QuarterExample | platform/proven_sys_chacha.c:32-41 | the quarter round of section 2.1.1 of RFC 8439 |
| ChaChaVectors.BlockExample | platform/proven_sys_chacha.c:52-66 | the block of its section 2.3.2, ten double rounds and the sum |
| ChaChaVectors.BytesExample | platform/proven_sys_chacha.c:67-71 | the first bytes of that block as they are written |
| StringBuilder.Builder.Reserve | nob.h:351-363 | the capacity suffices afterwards and the contents are kept when the buffer moves |
| StringBuilder.DoublingReaches | nob.h:352-359 | doubling in 64 bits reaches the capacity asked for if and only if that is at most 2^63 |
| StringBuilder.Builder.Append | nob.h:366-370 | one character is added to the contents |
| StringBuilder.Builder.AppendMany | nob.h:375-380 | a string is added to the contents |
| WinQuote.ScanEscaped | nob.h:1195-1216 | in quotes, what is written for the rest of an argument with n backslashes pending is read back as those backslashes and that rest, up to the closing quote |
| WinQuote.ScanPlain | nob.h:1189-1191 | an argument without special characters is read back unquoted, backslashes included |
| WinQuote.ScanQuoted | nob.h:1189-1218 | one printed argument, empty or not, is read back whole and nothing of what follows it is taken |
| WinQuote.QuoteEscaped | nob.h:1192-1217 | the quoted branch appends a quote, the escaped argument and a quote |
| WinQuote.Quote | nob.h:1182-1220 | the whole loop appends the quoted arguments before the first null pointer, separated by single blanks |
| WinQuote.RoundTrip | nob.h:1182-1220 | for every list of arguments Microsoft's rules take the printed line apart into the same list |
| WinQuote.QuoteLine | nob.h:1182-1220 | the line the loop writes into an empty buffer parses back to its arguments |
| WinQuote.PlainExactly | nob.h:1189-1191 | an argument is written as it is if and only if it is not empty and holds no space, tab, new line, vertical tab or quote |
| QuoteVectors.BlankExample | nob.h:1189-1218 | an argument with a blank is written between quotes |
| QuoteVectors.BackslashExample | nob.h:1195-1216 | backslashes are doubled before a quote and at the end |
| QuoteVectors.TwoQuotesExample | nob.h:1195-1216 | each quote in an argument is escaped |
| Exponents.BitLengthBounds | scripts/generate_float_decimal_tables.py:18-21 | bit_length brackets a number between two powers of two |
| Exponents.TenTo643 | scripts/generate_float_decimal_tables.py:92-92 | 10^643 < 2^2136, the upper of two close approximations of log2(10) |
| Exponents.TenTo146 | scripts/generate_float_decimal_tables.py:92-92 | 2^485 < 10^146, the lower one |
| FloatTables.FloorLog2Pow10IsExact | scripts/generate_float_decimal_tables.py:15-21 | the result m satisfies 2^m <= 10^q < 2^(m+1) for every integer q |
| FloatTables.EstimateIsExact | scripts/generate_float_decimal_tables.py:91-92 | (217706 * q) >> 16 equals floor(log2(10^q)) for every q between -642 and 642, so for the whole emitted range |
| FloatTables.EstimateFailsAt643 | scripts/generate_float_decimal_tables.py:91-92 | and it is off by one at 643 and at -643 |
| FloatTables.QuotientIs | scripts/generate_float_decimal_tables.py:26-34 | numerator over denominator is 10^k / 2^e in every combination of signs |
| FloatTables.FloorLog2Pow10IsOnly | scripts/generate_float_decimal_tables.py:15-21 | and is the only integer that does |
| FloatTables.DoubleFloorIsExact | scripts/generate_float_decimal_tables.py:26-26 | math.floor(k * math.log2(10)), with the double nearest to log2(10) and the product rounded to a double, is the exact floor for every k between -642 and 642 |
| FloatTables.CachedPowerFrom | scripts/generate_float_decimal_tables.py:24-40 | from the exact floor, for every k: 2^63 <= f < 2^64 and f is within half a unit of 10^k / 2^e, the carry to 2^64 included |
| FloatTables.GrisuCachedPower | scripts/generate_float_decimal_tables.py:24-40 | the same from the floor of doubles that the script takes, wherever that floor is exact, and so for every k between -642 and 642 |
| FloatTables.GrisuPowers | scripts/generate_float_decimal_tables.py:45-51 | the list holds that entry for every step from the least to the greatest exponent, and no more |
| FloatTables.EmittedGrisuPowers | scripts/generate_float_decimal_tables.py:45-51 | the emitted table has 87 rows, for -348 to 340 in steps of 8, each with the nearest 64-bit power |
| FloatTables.ShiftedUp | scripts/generate_float_decimal_tables.py:82-85 | 5^q of at most 128 bits shifted up is an exact entry |
| FloatTables.ShiftedDown | scripts/generate_float_decimal_tables.py:82-85 | 5^q of more bits is cut, never rounded up |
| FloatTables.Divided | scripts/generate_float_decimal_tables.py:86-89 | for negative exponents the quotient has exactly 128 bits and is 5^q scaled, cut |
| FloatTables.EiselLemirePower | scripts/generate_float_decimal_tables.py:81-90 | for every integer q the entry v is in [2^127, 2^128) with v <= 5^q * 2^s < v + 1 for some s |
| FloatTables.EiselLemirePowers | scripts/generate_float_decimal_tables.py:78-93 | the emitted table has that entry for each exponent, and the estimate assertion holds at each |
| FloatTables.TruncationUnique | scripts/generate_float_decimal_tables.py:72-77 | that property determines both the entry and the scale |
| FloatTables.ScaledPowers | scripts/generate_float_decimal_tables.py:59-65 | each scaled entry is 5^q without its low bits, below 2^127, whole when it fits |
| FloatTables.InversePowers | scripts/generate_float_decimal_tables.py:66-71 | each inverse entry has exactly 128 bits and is below 2^shift / 5^q by at most one unit |
| FloatTables.ReciprocalIsTruncation | scripts/generate_float_decimal_tables.py:66-89 | from q = 1 the inverse entry of q is the Eisel-Lemire entry of -q |
| FloatTables.ReciprocalOfOne | scripts/generate_float_decimal_tables.py:66-71 | at q = 0 it is 2^128 - 1 instead |
| FloatTables.ScaledIsHalf | scripts/generate_float_decimal_tables.py:59-85 | a cut scaled entry is the Eisel-Lemire entry without its last bit |
| EiselLemire.MultiplyExact | src/proven/float_decimal.c:35-52 | the product of two 64-bit numbers from 32-bit pieces is exact in 128 bits |
| EiselLemire.LeadingZeros | src/proven/float_decimal.c:301-311 | shifting by the count puts the top bit of a number that is not zero in place 63 |
| EiselLemire.Product | src/proven/float_decimal.c:3157-3177 | where it answers, the bits above the lowest nine of the upper limb are those of every number the truncated factor can stand for, and only an exact product leaves nothing below them |
| EiselLemire.EntryScale | src/proven/float_decimal.c:3151-3155 | the binary scale of a table entry is the one the exponent estimate gives |
| EiselLemire.AnswerIsNearest | src/proven/float_decimal.c:3178-3204 | 54 bits, their rounding and the excluded ties make the double nearest to w * 10^q, ties to even |
| EiselLemire.Core | src/proven/float_decimal.c:3143-3205 | for every 64-bit w and every q, an answer is the nearest double to w * 10^q, ties to even |
| EiselLemire.ParseDirect | src/proven/float_decimal.c:3207-3213 | the same on the generated table |
| EiselLemire.Truncated | src/proven/float_decimal.c:3222-3238 | when the first 19 digits and the next number give the same answer, it is the nearest double to every number between them |
| Doubles.RoundedIsNearest | src/proven/float_decimal.c:3193-3204 | a significand rounded to the nearest integer, ties to even, packs into the nearest double, at the edges of its binade too |
| Doubles.NearestBetween | src/proven/float_decimal.c:3215-3221 | rounding is monotonic: what is nearest to two numbers is nearest to all between |
| Doubles.NearestIsOnly | src/proven/float_decimal.c:3127-3141 | no number has two nearest doubles |
| Doubles.Patterns | src/proven/float_decimal.c:3193-3204 | the bits of 0, 1, 1.5, 2 and of the least denormal, the least normal and the first number too large are those of the binary64 format |
| Doubles.TenAtSmall | src/proven/float_decimal.c:3131-3138 | powers of ten with negative exponents are fractions |
| Semaphore.MutualExclusionKept | platform/proven_sys_thread.c:155-185 | in every step exactly the owner is inside a critical section |
| Semaphore.AccountedKept | platform/proven_sys_thread.c:155-185 | every step keeps permits + waits = posts and the counts of calls returned, SIZE_MAX refusal included |
| Semaphore.NoLostWakeKept | platform/proven_sys_thread.c:155-185 | every step but a failed signal keeps: if a thread sleeps, the awake ones number at least the permits |
| Semaphore.WaitsNeverExceedPosts | platform/proven_sys_thread.c:155-185 | in every state of every run, with spurious wakeups and barging threads, permits are posts minus waits and waits never exceed the posts that have returned |
| Semaphore.NoWakeIsLostExactly | platform/proven_sys_thread.c:155-185 | for every run, no wake is lost in any of its states if and only if each failed signal comes when nobody sleeps or an awake thread is to spare |
| Semaphore.NoWakeIsLostUpTo | platform/proven_sys_thread.c:155-185 | and in every state before the first failed signal that is not so |
| Semaphore.SleepersAreCovered | platform/proven_sys_thread.c:160-182 | in such a run, between critical sections, the woken threads number at least the permits while one sleeps, and with a permit left one of them can take the mutex |
| Semaphore.FailedSignal | platform/proven_sys_thread.c:182-184 | a failed signal keeps the property if and only if nobody sleeps or an awake thread is to spare |
| Semaphore.RefusedExactlyWhenFull | platform/proven_sys_thread.c:177-180 | in a run a post is refused if and only if one more permit would not fit 64 bits |
| Semaphore.WaitOutcome | platform/proven_sys_thread.c:155-169 | for every call of wait in every run: it has taken one permit if it returns true, and otherwise none, the condition having refused it once |
| Semaphore.PostOutcome | platform/proven_sys_thread.c:171-185 | for every call of post: it has added one permit unless it was refused, and returns true if and only if it also signalled |
| Semaphore.FailedSignalLosesAWake | platform/proven_sys_thread.c:182-184 | a run in which one failed signal leaves a sleeper beside a permit with nobody on the way |
| ByteSearch.JoinTest | platform/proven_sys_mem.h:94-95 | the test of eight joined bytes is nonzero exactly when one of them is the target |
| ByteSearch.WordTestIsExact | platform/proven_sys_mem.h:91-95 | so is the test of eight bytes in memory, on either byte order |
| ByteSearch.MemChr | platform/proven_sys_mem.h:80-109 | the first index below n holding the byte, or none, as a byte-by-byte scan finds it |
| ByteSearch.MemRchr | platform/proven_sys_mem.h:180-205 | the last such index, or none |
| ByteSearch.MoveUp | platform/proven_sys_mem.h:44-45 | the ascending copy moves an overlapping range to a lower address |
| ByteSearch.MoveDown | platform/proven_sys_mem.h:46-47 | the descending copy moves it to a higher one |
| ByteSearch.MemMove | platform/proven_sys_mem.h:40-50 | the destination holds the old source bytes and all other bytes are kept, in every overlap, and null pointers change nothing |
| ByteSearch.MovedAt | platform/proven_sys_mem.h:40-50 | every byte of the destination is the source byte of its place, every other byte the old one |
| ByteSearch.UnsignedCharIs | platform/proven_sys_mem.h:83-83 | the byte looked for is the int converted modulo 256, negative ones too |
| Processes.System.Wait | nob.c:648-652 | a process can be waited for only while it is live, so never twice |
| Processes.System.Poll | nob.c:806-808 | a poll either finds the process over, and waits for it, or time goes by |
| LinkPool.RingPush | nob.c:1853-1854 | the ring holds the links in flight, oldest first, after one is put in |
| LinkPool.RingPop | nob.c:1839-1843 | and after the oldest is taken out |
| LinkPool.FinishTestLink | nob.c:649-664 | waiting for one link sets the flags of its own job by how the link and the installation went |
| LinkPool.LinksMeaning | nob.c:1815-1855 | the links started are exactly the needed ones whose process can be started, ascending, each once |
| LinkPool.LinkTests | nob.c:1806-1861 | every link started is waited for once, oldest first, never more at once than the limit; every job up to the first uninspectable one ends with the flags of its own outcome, and later jobs are untouched |
| TestPool.OrderIsLongFirst | nob.c:773-778 | the two passes visit each eligible job exactly once, the long ones first, each kind in registry order |
| TestPool.OrderIsFresh | nob.c:773-778 | a job about to be started has not been started |
| TestPool.WithoutMeaning | nob.c:809-809 | moving the last slot into the freed one removes exactly the finished job |
| TestPool.Sweep | nob.c:803-812 | one round of polls frees one slot with the result credited to its own job, or time has gone by, so the waiting loop ends |
| TestPool.RunTests | nob.c:766-832 | every process started is waited for exactly once, never more at once than the limit, each result in its own job, whether all steps succeed or the run breaks off at the first that cannot; the jobs started and each one's result are stated |
| TestPool.HaltMeaning | nob.c:773-800 | where a run breaks off, its job cannot be prepared, formed or started, and all before it can |
| TestPool.Report | nob.c:836-852 | the failed list is exactly the jobs that ran and failed, in registry order |
| Depfile.ReadDepfile | nob.c:182-203 | the reader returns the words after the target up to the end or a second rule, and fails when there are none |
| Depfile.RoundTrip | nob.c:182-203 | a dependency file with the names escaped as compilers escape them, on continued lines, with phony rules after them, is read back as the list if and only if no name is empty or holds white space, a dollar or a hash sign or ends in a colon, and the last is no lone backslash |
| Depfile.KeptExactly | nob.c:191-200 | the words that are kept are the names under the same condition, the reader undoing no escape |
| Depfile.DollarIsLost | nob.c:182-203 | a header named a$b.h is read back under another name |
| Depfile.Continued | nob.c:192-194 | a backslash before either kind of line end continues the line |
| Depfile.ReadExample | nob.c:182-203 | a rule over two lines and the phony rule after it |
| StateHash.HashBytes | nob.c:25-30 | the loop is the fold of 33 h + c in 32 bits |
| StateHash.FoldAppend | nob.c:16-55 | folding piece by piece is folding the whole stream |
| StateHash.FoldIs | nob.c:25-30 | the fold of a stream s from h is h 33^n + s_1 33^(n-1) + ... + s_n modulo 2^32 |
| StateHash.OneByteIsSeen | nob.c:25-30 | streams that differ in one byte never have the same hash |
| StateHash.ExchangeIsSeen | nob.c:25-30 | nor do streams that differ by the exchange of two different neighbouring bytes |
| StateHash.StreamExamples | nob.c:32-77 | the command is hashed as signed characters with a line end after each argument, files as unsigned bytes, the objects hash as four bytes, the lowest first |
| StateHash.FoldExample | nob.c:25-30 | the hash of two characters and of the same exchanged |
| StateHash.HashFiles | nob.c:32-65 | a list of files is folded as name, zero byte, contents, in order |
| StateHash.StreamDetermines | nob.c:32-55 | equal streams of the same names are of equal contents when no file but the last holds a zero byte or changed its size |
| StateHash.StreamAmbiguous | nob.c:32-55 | without such a condition the stream determines the contents if and only if there is at most one file |
| StateHash.StateDetermines | nob.c:67-77 | equal streams of two states mean the same command, contents and trailing objects hash |
| StateHash.LinedStatesDetermine | nob.c:67-77 | for files of whole lines without zero bytes, under names of one line, equal streams mean the same list of names too, though neither list was known |
| HashFile.ReadUndoesWrite | nob.c:79-98 | a hash written in decimal is read back |
| HashFile.DigitAt | nob.c:79-85 | the text holds the decimal digits, the highest first |
| HashFile.CutTextRead | nob.c:79-98 | of a text cut short the digits that are there are read, a smaller number, or none if there are none |
| IncrementalBuild.NoCollisionIsEnough | nob.c:205-219 | a recorded hash can be trusted when different byte streams do not collide in 32 bits and equal ones can be read back |
| IncrementalBuild.ToldApartExactly | nob.c:205-219 | with plain names that asks for no collision and no wrong match, whatever bytes the files hold: nothing more of files whose hashes differ or that are unchanged |
| IncrementalBuild.NoCollisionsIsTrusted | nob.c:1728-1860 | so can all hashes of a build, the links deciding after the objects are made |
| IncrementalBuild.SmallEditIsSeen | nob.c:205-219 | a file an object was built from is edited in one byte, or has two neighbouring bytes exchanged: the object is rebuilt, with no assumption on collisions |
| BuildCache.FaithfulKept | nob.c:1753-1769 | a rebuild keeps every recorded hash that of the build its output came from |
| BuildCache.KeptMeans | nob.c:205-219 | an output is kept if and only if no rebuild is forced, it is good, every file its dependency file names is there and the recorded hash is that of the command, those files and, for an executable, the objects hash |
| BuildCache.RebuiltMeans | nob.c:1753-1769 | a rebuild installs the compiler's output and changes no other file, and a hash it records is that of the new dependency file |
| BuildCache.KeptIsUpToDate | nob.c:1749-1752 | an output that is kept is what the compiler would make now |
| BuildCache.StepUpToDate | nob.c:1749-1773 | after its step a target is what the compiler makes of the files there are |
| BuildCache.RunUpToDate | nob.c:1728-1775 | so are all targets of a list after all steps |
| BuildCache.ForcedRunUpToDate | nob.c:1749-1773 | so are they after a forced run, whatever hashes were recorded |
| IncrementalBuild.BuildIsUpToDate | nob.c:1728-1860 | a successful build leaves every object and executable up to date and every record faithful |
| IncrementalBuild.ForcedBuildIsUpToDate | nob.c:1728-1860 | a forced build that succeeds leaves everything up to date, whatever hashes were recorded |
| IncrementalBuild.RunOkIsRunnable | nob.c:1728-1775 | a list of steps succeeds exactly when the compiler can make every target from the files there were |
| IncrementalBuild.TrustedIsClean | nob.c:1728-1860 | a build that trusts its recorded hashes rightly succeeds if and only if a clean build of the same sources does, and then ends with the same objects and executables |
| IncrementalBuild.IncrementalIsClean | nob.c:1728-1860 | the same, asking only that different byte streams that are compared do not collide in 32 bits, and equal ones can be read back |
| BuildHistory.HistoryIsFaithful | nob.c:1724-1860 | through any sequence of builds, whole or broken off, and edits, every recorded hash stays that of the build its output came from |
| BuildHistory.HistoryIsSourced | nob.c:1724-1860 | so does the hash of an output whose dependency file was deleted |
| BuildHistory.EveryBuildIsClean | nob.c:1724-1860 | after any such history a build without collisions succeeds if and only if a clean build does, and leaves the same objects and executables |
| OverlappedLinks.SameDecision | nob.c:1815-1855 | a link decided and started while earlier ones still run gets the decision and the result it would get after them |
| OverlappedLinks.OverlapIsSequential | nob.c:1815-1860 | in whatever order links are decided, started and, oldest first, finished, the directory is that of one link after another |
| LinkDriver.LinkOverlapped | nob.c:1815-1860 | the ring over the build directory, room made when it is full and drained at the end, does one of these passes, so it leaves the directory of one link after another and succeeds exactly when that does |
| LinkDriver.BuildOverlapped | nob.c:1724-1860 | the whole build with overlapped links succeeds and ends as the one with sequential links |
| LostWrite.KeptExactly | nob.c:224-236 | after a build whose hash was not written or deleted, and any change that leaves its own files alone, the driver keeps the output if and only if the sources and the command are the recorded ones, under the same names, and the output is good; and wrongly if and only if the two builds made different outputs |
| LostWrite.SomeEditIsKept | nob.c:224-236 | after every lost write over a compiled output there is an edit of the sources that the driver keeps it under |
| LostWrite.CutWrite | nob.c:79-85 | a hash of which some digits were written is a smaller number and has the output built again while nothing else changes; without a digit it is no hash |
| LostWrite.LostWriteIsHarmless | nob.c:224-236 | the record stays right if and only if there was no hash, or no dependency file, or the new build made what the old one had |
| LostWrite.RevertedIsKept | nob.c:224-236 | if the sources are edited back it is kept whatever the hash tells apart |
| LostWrite.LostWriteKeepsAStaleObject | nob.c:231-234 | a history of one source in which the driver is content with the wrong object |
| IncrementalBuild.EditsKeepRecords | nob.c:205-236 | editing sources and deleting outputs, dependency files or hashes between builds keeps the records faithful |
| IncrementalBuild.SecondBuild | nob.c:1749-1860 | a build right after a successful one needs no target and changes nothing |
| BuildDriver.BuildDir.StateHash | nob.c:205-219 | the state of an output, unknown without a readable dependency file or with a named file missing |
| BuildDriver.BuildDir.OutputIsGood | nob.c:100-142 | the output is there and not empty, and for an executable runnable and no older than an object |
| BuildDriver.BuildDir.RecordBuildState | nob.c:224-236 | the new dependency file is installed and the hash taken from it recorded, or the old hash removed; or, unnoticed, the hash file stays as it was or holds the first characters only |
| BuildDriver.BuildDir.Decide | nob.c:1749-1752 | a target is rebuilt when its state is unknown or differs, its output is not good, or a rebuild is forced |
| BuildDriver.BuildDir.BuildTarget | nob.c:1749-1774 | one target: rebuilt exactly when needed, and after a failure output and record are as before |
| BuildDriver.BuildDir.CompileAll | nob.c:1728-1775 | the library loop stops at the first failure, with the steps before it done and nothing else |
| BuildDriver.BuildDir.LinkAll | nob.c:1815-1860 | a failed link is remembered and the others go on |
| BuildDriver.BuildDir.BuildAll | nob.c:1724-1860 | after success or failure the directory is that of the steps done, with every record still right; the count of rebuilt outputs is zero exactly when no step needs one, and all of them when the build is forced |
| BuildDriver.BuildDir.BuildTwice | nob.c:1724-1860 | a successful build brings every output up to date, and the build after it rebuilds nothing |

## Left out

- AES S-box: a parameter with its inverse, since no table is read in the instruction code; decryption needs only that one undoes the other, and the key schedule needs neither. The examples of AesVectors assume those bytes of the standard's table that they meet.
- Wiping of buffers, processor detection, compiler attributes and constant time: not functional behaviour. CounterMode keeps the round keys in a sequence where the code copies them to a local array.
- Partly overlapping in and out buffers: an input and an output array are the same array at the same place or separate, as the headers ask.
- Gcm.OnePass: the lengths block is that of SP 800-38D only below 2^36 bytes; Gcm.LengthsExact says exactly when the code's is.
- FloatTables.GrisuCachedPower: at or beyond 643 in absolute value the entry is as stated only if the floor of doubles is the exact one; whether it is, is not proved there. The script emits -348 to 340. That the platform's math.log2(10) is the double nearest to log2(10) is taken from it.
- FloatTables.GrisuPowers: the same for its rows; FloatTables.EmittedGrisuPowers has no condition.
- FloatTables.EiselLemirePowers: exponents at or beyond 643 in absolute value, where the script's own assertion fails; FloatTables.EiselLemirePower has no such limit.
- EiselLemire: the decimal scanner before it, the staged and exact paths that decide what it leaves uncertain, and the sign; the numbers w, q and v are given.
- FloatTables: splitting values into hexadecimal halves and the text of the generated header.
- WinQuote: the program name, which Microsoft's rules read differently; the uniform rule is used for all arguments. Zero bytes cannot occur in C strings.
- StringBuilder.Builder.Reserve: a failed allocation, on which the source asserts, is not represented, and capacities are unbounded; StringBuilder.DoublingReaches says when 64 bits are enough.
- Semaphore: destruction, creation and the Windows calls; the state is a value stepped by a relation, not an object updated under a real lock. Unlocking by the owner is taken to succeed, and pthread_cond_wait to fail only before it sleeps.
- ByteSearch: memory beyond one array; that nothing outside it is read is Dafny's own index check, for an array of just n bytes as for a longer one.
- LinkPool.FinishTestLink: whether the installation and the recording succeed is given for each job; the file operations are those of BuildDriver.
- LinkPool.StartLink: the job's should_link flag is set after room was made in the ring rather than just before, and the driver's file checks are outcomes given per job.
- TestPool: the run directory, its symbolic links and the captured output are one outcome per job; counting rebuilt and cached jobs and printing them is omitted.
- Processes.System.Wait: how a process ends is settled beforehand; a wait that fails, a signal and a lost child count as an unsuccessful end.
- Processes.System.Poll: how many polls a process runs for is settled beforehand, and a poll that fails counts as an unsuccessful end.
- BuildDriver.BuildDir.LinkAll: links run one after another, where the source overlaps them; LinkDriver.LinkOverlapped is the overlapped form, and ends in the same directory when the linker depends only on what it reads.
- BuildDriver.BuildDir.Install: the hash is written whole or deleted; BuildDriver.BuildDir.RecordBuildState and LostWrite have the attempts that fail.
- LinkDriver.LinkOverlapped: every link can be started, its outcome being that of the linker on the files there are; LinkPool has the processes, the ones that cannot be started and the limit on how many run.
- LostWrite.KeptExactly: a record that two different lists of names share is told from the present state only for files of whole lines, under names of one line.
- BuildDriver: the clock has no whole-second resolution.
- BuildCache: what the compiler must satisfy is stated as predicates - it depends only on the command and what it reads, and a readable dependency file names what it read. System headers, which -MMD leaves out of the file, belong to the compiler: replacing them between builds is not modelled. No edits fall between a decision and its record.
- StateHash: an unreadable file counts as missing, and reading in 8192-byte pieces is one fold over the contents.
- nob.c argument parsing, logging, directory walking, the manual code-block check and the cross-compile matrix: text plumbing around the modelled core.
- Other platform files (file system, environment, random numbers, trust store, time): system-call wrappers with error mapping.

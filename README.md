# IDEA in libmcrypt, and the framing of the Python mcrypt binding

This project is a Dafny model of two parts of the system, with proofs about each.

The first part is the IDEA block cipher module of libmcrypt 2.5.8 (`modules/algorithms/idea.c`, `idea.h`):

- the multiplication modulo 2^16+1 (`Mul`), its inverse (`MulInv`) and the additive inverse (`AddInv`);
- the 52-word key expansion (`_mcrypt_set_key`) and the decryption-key inversion (`_mcrypt_Idea_InvertKey`);
- the in-place block encryption and decryption of 8-byte blocks;
- the self test against the known answer `3223edc0f33ba078`;
- the size and name getters.

The second part is the Python binding `mcrypt.c`:

- the initialisation state machine `init_mcrypt` over NONE/ANY/ENCRYPT/DECRYPT;
- the key check `check_key` and the iv check `get_iv_from_obj`;
- the "fixlength" framing of `MCRYPT_encrypt` and `MCRYPT_decrypt`.

The libmcrypt calls the binding makes are parameters of the model: the key sizes, the return codes, whether an allocation succeeds, and the cipher itself.

Modules:

- `Bits` (`bits.dfy`): bytes and 16-bit words, exclusive or by bits, and little-endian byte packing.
- `IdeaArith` (`idea_arith.dfy`): the group operations. `MulW` is multiplication in the multiplicative group modulo 65537, with 0 standing for 2^16. `Mul` and `MulInv` are the C routines as methods and are proved against `MulW`.
- `IdeaSpec` (`idea_spec.dfy`): the cipher as functions on a block of four words.
  - The rounds, the output transform, and the key schedule `ExpandKey` are given as a rotation of the 128-bit user key by 25 bits.
  - It also states what an inverse schedule is (`IsInverseSchedule`) and proves that decryption with it undoes encryption.
- `IdeaKnownAnswer` (`idea_kat.dfy`): the known-answer computation, round by round: the expanded schedule, the eight rounds, and the output.
- `Idea` (`idea.dfy`): the C module as imperative code.
  - The class `IdeaKey` holds the `Idea_Key` and `Idea_inverted_Key` arrays of `IDEA_KEY`. Its methods are `SetKey`, `InvertKey`, `Encrypt` and `Decrypt`.
  - `CryptInPlace` is the register-level round loop shared by encryption and decryption.
  - `SelfTest` is `_mcrypt_self_test`.
- `Mcrypt` (`mcrypt.dfy`): the binding.
  - The class `McryptObject` holds the fields `init_mcrypt` updates. Its `Init` is the Python `init()` method. The Python `reinit()` and `deinit()` methods are `InitMcrypt` with the REINIT and DEINIT requests (mcrypt.c:491-520).
  - The framing of `encrypt`/`decrypt` is modelled as functions, plus methods that build the buffers.

The key schedule, the rounds and the output transform are checked against the published known answer: `KnownAnswer` computes it. `SelfTest` is proved to return 0.

Byte order: every 16-bit word of a block and of the user key is loaded and stored low byte first, on every host. On a big-endian host the code byte-swaps each word after loading and before storing (idea.c:71-81, 110-128, 360-366), which gives the same words as the direct access on a little-endian host. `KnownAnswer` proves that this packing yields `3223edc0f33ba078`.

## Model

| member | source | states |
|---|---|---|
| IdeaArith.MulWElem | libmcrypt-2.5.8/modules/algorithms/idea.c:40-56 | `MulW` is multiplication modulo 2^16+1 where the word 0 stands for 2^16 |
| IdeaArith.Mul | libmcrypt-2.5.8/modules/algorithms/idea.c:49-56 | the unmasked new `a` is `0x10001 - b` when a is 0, `0x10001 - a` when only b is 0, and otherwise the product with its high half folded back in (subtracted, or subtracted after adding 0x10001), which leaves the high half in `b`; masked to 16 bits it is the group product `MulW(a, b)` |
| IdeaArith.MulWComm | libmcrypt-2.5.8/modules/algorithms/idea.c:49-56 | the group product is commutative |
| IdeaArith.MulWOne | libmcrypt-2.5.8/modules/algorithms/idea.c:49-56 | 1 is the unit of the group product |
| IdeaArith.ProductNotMultiple | libmcrypt-2.5.8/modules/algorithms/idea.c:25 | the product of two residues in 1..65536 is never a multiple of 65537, so the group is closed |
| IdeaArith.MulModPrime | libmcrypt-2.5.8/modules/algorithms/idea.c:25 | 65537 has no divisors besides 1 and itself |
| IdeaArith.MulWCancel | libmcrypt-2.5.8/modules/algorithms/idea.c:205-209 | multiplying by a key word and then by its inverse gives back the input |
| IdeaArith.MulInverseUnique | libmcrypt-2.5.8/modules/algorithms/idea.c:205-209 | a word has at most one multiplicative inverse |
| IdeaArith.MulInv | libmcrypt-2.5.8/modules/algorithms/idea.c:212-267 | the extended Stein algorithm returns r with `MulW(x, r) == 1`, and 0 and 1 are returned unchanged |
| IdeaArith.HalveWhileEven | libmcrypt-2.5.8/modules/algorithms/idea.c:224-237 | halving an even remainder keeps it a combination `a*x + b*65537` with a bounded coefficient and keeps the common divisors |
| IdeaArith.HalveOnce | libmcrypt-2.5.8/modules/algorithms/idea.c:225-236 | one halving step, with the coefficient made even by adding or subtracting 65537, halves the combination |
| IdeaArith.SubtractWhileAbove | libmcrypt-2.5.8/modules/algorithms/idea.c:238-261 | the inner subtraction loop either finds the inverse (remainder 0) or leaves a smaller odd combination |
| IdeaArith.ReduceOnce | libmcrypt-2.5.8/modules/algorithms/idea.c:223-265 | one pass of the outer loop either returns the inverse or strictly shrinks n1 + n2, keeping the Bezout invariants |
| IdeaArith.Inverse | libmcrypt-2.5.8/modules/algorithms/idea.c:244-246 | normalising the coefficient of a combination equal to 1 into 0..65536 gives the inverse |
| IdeaArith.AddInv | libmcrypt-2.5.8/modules/algorithms/idea.c:269-274 | `x + AddInv(x)` is 0 modulo 2^16 |
| IdeaArith.AddInvInvolution | libmcrypt-2.5.8/modules/algorithms/idea.c:274 | the additive inverse is an involution |
| IdeaArith.AddWCancel | libmcrypt-2.5.8/modules/algorithms/idea.c:269-274 | adding a key word and then its additive inverse gives back the input |
| IdeaArith.AddMasked | libmcrypt-2.5.8/modules/algorithms/idea.c:85-87 | adding to an unmasked 32-bit register and masking later equals 16-bit addition |
| Bits.Xor32 | libmcrypt-2.5.8/modules/algorithms/idea.c:93 | the low 16 bits of a 32-bit exclusive or are the exclusive or of the low 16 bits |
| Bits.XorInvolution | libmcrypt-2.5.8/modules/algorithms/idea.c:101-105 | exclusive or with the same word twice is the identity |
| Bits.XorCancel | libmcrypt-2.5.8/modules/algorithms/idea.c:101-105 | a common word cancels between two exclusive ors |
| Bits.XorComm | libmcrypt-2.5.8/modules/algorithms/idea.c:93 | exclusive or is commutative |
| Bits.WordsOfBytesOfWords | libmcrypt-2.5.8/modules/algorithms/idea.c:76-81 | unpacking packed words gives the words back |
| Bits.BytesOfWordsOfBytes | libmcrypt-2.5.8/modules/algorithms/idea.c:121-127 | packing unpacked bytes gives the bytes back |
| IdeaSpec.RotateWordsValue | libmcrypt-2.5.8/modules/algorithms/idea.c:367-379 | each eight-word block of the expanded key is the previous 128-bit block rotated left by 25 bits |
| IdeaSpec.KeyBlockRotation | libmcrypt-2.5.8/modules/algorithms/idea.c:367-379 | block k+1 of the schedule is block k rotated left by 25 bits |
| IdeaSpec.ExpandKeyPrefix | libmcrypt-2.5.8/modules/algorithms/idea.c:363-366 | the first eight words of the schedule are the user key |
| IdeaSpec.ExpandKeyFrom | libmcrypt-2.5.8/modules/algorithms/idea.c:367-379 | word m of group k >= 1 is spliced from words m+1 and m+2, taken cyclically, of group k-1 |
| IdeaSpec.ExpandKeyStep | libmcrypt-2.5.8/modules/algorithms/idea.c:367-379 | every word from position 8 on satisfies the recurrence of the three `(i & 7)` cases: from i-7 and i-6, from i-7 and i-14, or from i-15 and i-14 |
| IdeaSpec.MulAddInvolution | libmcrypt-2.5.8/modules/algorithms/idea.c:92-106 | the multiply-add layer of a round undoes itself |
| IdeaSpec.KeyMixCancel | libmcrypt-2.5.8/modules/algorithms/idea.c:84-91 | a key mix followed by the mix with the inverted words is the identity |
| IdeaSpec.KeyMixSwapCancel | libmcrypt-2.5.8/modules/algorithms/idea.c:84-106 | the same across the swap of the middle words between rounds |
| IdeaSpec.InverseGroup | libmcrypt-2.5.8/modules/algorithms/idea.c:281-340 | group j of an inverse schedule undoes group 8-j of the schedule |
| IdeaSpec.DecryptRetraces | libmcrypt-2.5.8/modules/algorithms/idea.c:149-173 | after j decryption rounds the state is the encryption state 8-j rounds in |
| IdeaSpec.DecryptEncrypt | libmcrypt-2.5.8/modules/algorithms/idea.c:132-201 | decrypting with an inverse schedule undoes encryption for every block |
| IdeaSpec.InverseSymmetric | libmcrypt-2.5.8/modules/algorithms/idea.c:277-279 | if d inverts z then z inverts d, as the comment on `InvertKey` promises in both directions |
| IdeaSpec.InverseUnique | libmcrypt-2.5.8/modules/algorithms/idea.c:281-340 | a schedule has only one inverse schedule |
| IdeaSpec.InverseInverse | libmcrypt-2.5.8/modules/algorithms/idea.c:277-279 | inverting an inverted schedule gives back the schedule |
| IdeaKnownAnswer.KnownAnswer | libmcrypt-2.5.8/modules/algorithms/idea.c:415-451 | with the self-test key and plaintext the cipher yields the block written `3223edc0f33ba078` |
| Idea.BlockOfBytesOfBlock | libmcrypt-2.5.8/modules/algorithms/idea.c:121-127 | storing a block's words and loading them again gives the block back |
| Idea.BytesOfBlockOfBytes | libmcrypt-2.5.8/modules/algorithms/idea.c:76-81 | loading 8 bytes as words and storing them again gives the bytes back |
| Idea.CryptBytes | libmcrypt-2.5.8/modules/algorithms/idea.h:29-36 | the cipher maps an 8-byte block to an 8-byte block |
| Idea.DecryptEncryptBytes | libmcrypt-2.5.8/modules/algorithms/idea.c:132-201 | on bytes, decryption with the inverted schedule undoes encryption |
| Idea.EncryptDecryptBytes | libmcrypt-2.5.8/modules/algorithms/idea.c:66-129 | on bytes, encryption undoes decryption with the inverted schedule |
| Idea.CryptInPlace | libmcrypt-2.5.8/modules/algorithms/idea.c:66-129 | the eight register rounds and the output transform leave in the buffer the cipher of its old contents |
| Idea.RoundRegisters | libmcrypt-2.5.8/modules/algorithms/idea.c:83-107 | one pass of the round loop on the 32-bit registers computes one round of the cipher |
| Idea.KeyMixRegisters | libmcrypt-2.5.8/modules/algorithms/idea.c:84-91 | the first four key words are mixed in, within the register bounds the later steps need |
| Idea.MulAddRegisters | libmcrypt-2.5.8/modules/algorithms/idea.c:92-106 | the multiply-add layer on registers equals the word-level layer, with the middle words swapped |
| Idea.MulAddKeys | libmcrypt-2.5.8/modules/algorithms/idea.c:92-99 | the two masked products are the group products of sub-key 4 with `x0 ^ x2` and of sub-key 5 with `(x1 ^ x3) + t0`, whatever the registers carry above 16 bits |
| Idea.OutputTransform | libmcrypt-2.5.8/modules/algorithms/idea.c:108-127 | the last four key words are mixed in and the block is stored low byte first |
| Idea.InvertedHead | libmcrypt-2.5.8/modules/algorithms/idea.c:286-299 | the first and last groups of the inverted key invert the last and first groups of the key |
| Idea.InvertedGrow | libmcrypt-2.5.8/modules/algorithms/idea.c:300-320 | each pass of the inversion loop extends the inverted region by one group at each end |
| Idea.InvertedComplete | libmcrypt-2.5.8/modules/algorithms/idea.c:321-334 | the even-round tail completes an inverse schedule |
| Idea.IdeaKey.constructor | libmcrypt-2.5.8/modules/algorithms/idea.h:39-42 | a key object owns two distinct arrays of 52 words |
| Idea.IdeaKey.SetKey | libmcrypt-2.5.8/modules/algorithms/idea.c:347-385 | the key holds the expansion of the 16 user-key bytes, the inverted key its inverse schedule, and 0 is returned |
| Idea.IdeaKey.InvertKey | libmcrypt-2.5.8/modules/algorithms/idea.c:281-340 | the inverted key becomes an inverse schedule of the key, which is left unchanged |
| Idea.IdeaKey.InvertInnerGroups | libmcrypt-2.5.8/modules/algorithms/idea.c:300-320 | one loop pass moves both cursors by a group and keeps the region outside them inverted |
| Idea.IdeaKey.Exchange | libmcrypt-2.5.8/modules/algorithms/idea.c:301-303 | two entries of the inverted key are set to the transformed key words at the opposite positions |
| Idea.IdeaKey.Encrypt | libmcrypt-2.5.8/modules/algorithms/idea.c:66-129 | the block is replaced by its encryption under the key |
| Idea.IdeaKey.Decrypt | libmcrypt-2.5.8/modules/algorithms/idea.c:132-201 | the block is replaced by its decryption under the inverted key |
| Idea.GetSize | libmcrypt-2.5.8/modules/algorithms/idea.c:390-393 | the key object is two schedules of 52 words, 208 bytes |
| Idea.GetBlockSize | libmcrypt-2.5.8/modules/algorithms/idea.c:395-398 | the block size is the 8-byte data size |
| Idea.GetKeySize | libmcrypt-2.5.8/modules/algorithms/idea.c:405-408 | the key size is the 16-byte user key |
| Idea.GetSupportedKeySizes | libmcrypt-2.5.8/modules/algorithms/idea.c:470-475 | the one supported size is the key size |
| Idea.Hex | libmcrypt-2.5.8/modules/algorithms/idea.c:441-444 | byte i is written as its two lower-case hex digits at positions 2i and 2i+1, high digit first |
| Idea.SelfTestKey | libmcrypt-2.5.8/modules/algorithms/idea.c:426-429 | the bytes `(2j+10) % 256` pack into the known user key |
| Idea.SelfTestBlock | libmcrypt-2.5.8/modules/algorithms/idea.c:430-434 | the bytes `j % 256` pack into the known plaintext block |
| Idea.SelfTestEncrypt | libmcrypt-2.5.8/modules/algorithms/idea.c:436-439 | encrypting the test plaintext under the test key gives the known ciphertext |
| Idea.CipherHex | libmcrypt-2.5.8/modules/algorithms/idea.c:415 | the eight known cipher bytes print as the expected string |
| Idea.SelfTestHex | libmcrypt-2.5.8/modules/algorithms/idea.c:441-446 | the known ciphertext prints as `3223edc0f33ba078` |
| Idea.SelfTest | libmcrypt-2.5.8/modules/algorithms/idea.c:417-464 | the self test passes, returning 0 |
| Idea.TestKeyword | libmcrypt-2.5.8/modules/algorithms/idea.c:426-429 | the filled keyword holds the test key bytes |
| Idea.TestBlocks | libmcrypt-2.5.8/modules/algorithms/idea.c:430-436 | two distinct fresh buffers both hold the test plaintext |
| Idea.HexString | libmcrypt-2.5.8/modules/algorithms/idea.c:441-444 | the formatting loop writes the hex form of the buffer |
| Idea.CompareKnownAnswer | libmcrypt-2.5.8/modules/algorithms/idea.c:439-463 | when encryption gives the known answer and decryption undoes it, both comparisons pass and 0 is returned |
| Mcrypt.CheckKey | mcrypt.c:158-196 | a key is accepted exactly when present, non-empty, at most the maximum and listed when sizes are listed; each rejection carries its own error |
| Mcrypt.GetIvFromObj | mcrypt.c:102-122 | None means no iv, a string is accepted exactly when its length is the iv size, anything else is a type error |
| Mcrypt.StoredIv | mcrypt.c:305-309 | the stored iv is a copy of the given one, or iv-size zeros |
| Mcrypt.McryptObject.constructor | mcrypt.c:1202 | a new object, zeroed by the generic allocator, is in state NONE with no stored key or iv; it holds the block mode, block size and iv size given to it |
| Mcrypt.McryptObject.InitMcrypt | mcrypt.c:202-327 | every request from every state ends in the state, stored key and iv, and status the switch prescribes, and the object stays consistent |
| Mcrypt.McryptObject.Init | mcrypt.c:458-480 | a bad iv object fails with its error and changes nothing; otherwise the key, at its full length, goes through the INIT request with the checked iv |
| Mcrypt.McryptObject.RequestCipher | mcrypt.c:221-238 | ENCRYPT/DECRYPT succeed only from the same state or ANY, and otherwise fail with the state unchanged |
| Mcrypt.McryptObject.Reinit | mcrypt.c:255-280 | a quick or hard reinit ends in ANY, a failed hard reinit in NONE with key and iv forgotten, and a failed deinit changes nothing |
| Mcrypt.McryptObject.Restart | mcrypt.c:281-324 | DEINIT always ends in NONE with nothing stored; INIT ends in ANY with copies of key and iv, or in NONE on any failure |
| Mcrypt.McryptObject.BlockSize | mcrypt.c:551-556 | the framing block size is positive, 1 for a stream cipher |
| Mcrypt.McryptObject.Encrypt | mcrypt.c:536-583 | from ENCRYPT or ANY the result is the cipher of the padded buffer and the state becomes ENCRYPT; from elsewhere the init error with nothing changed |
| Mcrypt.McryptObject.Decrypt | mcrypt.c:597-649 | from DECRYPT or ANY the result is the framed decryption of the whole blocks and the state becomes DECRYPT; from elsewhere the init error |
| Mcrypt.PaddedLength | mcrypt.c:561-565 | the buffer is the least multiple of the block size holding the data, and with fixlength also a byte beyond it |
| Mcrypt.Padded | mcrypt.c:566-574 | the encrypt buffer has the padded length |
| Mcrypt.PaddedContents | mcrypt.c:570-574 | the buffer holds the data, then zeros, and with fixlength the last byte is the length of the last block |
| Mcrypt.EncryptBuffer | mcrypt.c:561-574 | the memset, length-byte store and memcpy leave exactly the padded buffer |
| Mcrypt.DecryptSize | mcrypt.c:624-625 | decrypt works on the whole blocks: a multiple of the block size, at most the data, less than a block short |
| Mcrypt.DecryptBuffer | mcrypt.c:624-631 | the decrypt buffer holds the whole blocks of the data |
| Mcrypt.DecryptLeft | mcrypt.c:633-641 | the length of the last block is between 0 and the block size |
| Mcrypt.DecryptOutput | mcrypt.c:645-646 | the output is a prefix of the decrypted blocks at most one block shorter, and all of them without fixlength |
| Mcrypt.FixlengthRoundTrip | mcrypt.c:633-646 | for blocks of at most 256 bytes, decrypting the fixlength buffer with fixlength recovers exactly the data |
| Mcrypt.EncryptDecryptFixlength | mcrypt.c:558-646 | when the cipher decrypts what it encrypts, encrypt then decrypt with fixlength returns the data |
| Mcrypt.NoFixlengthRoundTrip | test.py:246-257 | without fixlength decrypt returns the data followed by its zero padding |
| Mcrypt.FixlengthByteVisible | test.py:233-244 | decrypting a fixlength buffer without fixlength shows the length byte at the end |
| Mcrypt.FixlengthClampsWholeBlocks | mcrypt.c:636-638 | a last byte larger than the block size is clamped, returning whole blocks |
| Mcrypt.NegativeLengthAsWritten | mcrypt.c:635-638 | with a signed `char` every last byte of 128 or more gives a length below the whole blocks but the last, -1 for one block ending in 0xff, while the corrected output keeps them |
| Mcrypt.FixlengthSignedAgrees | mcrypt.c:633-646 | for blocks of at most 128 bytes the signed reading of a buffer `encrypt` framed gives the length of the data, as the corrected reading does |
| Mcrypt.EmptyBufferReadAsWritten | mcrypt.c:633-635 | for all data shorter than a block the length byte index is -1, and the corrected output is empty |
| Mcrypt.DecryptCopyOverflowAsWritten | mcrypt.c:624-631 | the copy is `d % bs` bytes longer than the buffer, so it overflows exactly when the data is not a whole number of blocks |

## Left out

- Byte order: only the little-endian host branch of each `#ifdef WORDS_BIGENDIAN` is modelled. The big-endian branches byte-swap to the same word values.
- The odd-round tail of the inversion (idea.c:335-338) and the `Idea_keyLen <= Idea_userKeyLen` copy (idea.c:351-358) are not modelled. With 8 rounds and an 8-word user key they are not compiled.
- `IdeaArith.MulInv`: the outer and inner loops are methods of their own. Each keeps the loop's invariants, so the C control flow is kept but not as one body.
- The `printf` diagnostics of the self test are left out. The hex form of the ciphertext after decryption is also left out, because it is printed only.
- The `len` argument of `_mcrypt_set_key` is carried but unused, as in C.
- The memory from `calloc` and `malloc` is modelled as fresh zeroed arrays.
- The libmcrypt calls are parameters of the model:
  - `mcrypt_enc_get_key_size`, `mcrypt_enc_get_supported_key_sizes`, `mcrypt_enc_set_state`, `mcrypt_generic_init` and `mcrypt_generic_deinit` become values in `Library`;
  - `mcrypt_generic` and `mdecrypt_generic` become a transform and a return code;
  - the state the library keeps in `self->thread` is not modelled.
- The error text of a negative library code (`mcrypt_strerror` and its rewriting) is not modelled. The status carries the code.
- The CPython glue is not modelled: argument parsing, reference counts, the type object, module setup, and the list and query functions. `PyMem_Malloc` failure is a boolean parameter, and `PyString_FromStringAndSize` is the returned sequence.
- `encrypt_file` and `decrypt_file` are left out. They are I/O loops over Python file callbacks.
- The thread-lock code is left out. It is compiled out and concerns concurrency only.
- The object set-up in `MCRYPT__init__` is modelled only as the constructor taking the block mode, block size and iv size the library reports. Checking the algorithm and mode names needs the library.
- `Mcrypt.McryptObject.Decrypt`: the model copies only the whole blocks and reads the length byte unsigned and only when a block is present. The C code copies all the data, reads the byte signed, and reads it even from an empty buffer. See Findings.
- `Mcrypt.FixlengthRoundTrip`: proved for blocks of at most 256 bytes. The length byte cannot hold larger block lengths.
- `Mcrypt.DecryptOutput`: a signed `char` is read as 0..255. For blocks of at most 128 bytes this gives the same result as C on every buffer `encrypt` framed (`FixlengthSignedAgrees`).
- `Mcrypt.McryptObject.constructor`: a block algorithm is assumed to report a positive block size. The C code (mcrypt.c:423-427) rejects only a negative size, so a block size of 0 would reach the divisions at mcrypt.c:561 and mcrypt.c:624.
- `Mcrypt.PaddedLength`: computed on unbounded integers. The C code computes `numblocks * block_size` as an `int` (mcrypt.c:561-565), which overflows for data within a block of `INT_MAX` bytes.
- `Mcrypt.DecryptSize`: computed on unbounded integers. The C `int` product at mcrypt.c:624-625 cannot exceed the data size, so it does not overflow.
- `Idea.IsBlockAlgorithm`, `Idea.GetAlgorithmsName` and `Idea.AlgorithmVersion` return constants (1, "IDEA", 20010701). They have no property beyond their value.

## Findings

| source | as written | input that shows it | evidently intended | confidence | as-written member | corrected member |
|---|---|---|---|---|---|---|
| mcrypt.c:624-631 | `decrypt` allocates the whole blocks of the data but copies all `data_size` bytes into them | 9 bytes with block size 8: 9 bytes are written into an 8-byte buffer | copy only the whole blocks | high, not executed | Mcrypt.DecryptCopyOverflowAsWritten | Mcrypt.DecryptBuffer |
| mcrypt.c:633-635 | with fixlength the length byte is read at `blockbuffer_size - 1` even when the buffer is empty | 5 bytes with block size 8: the index is -1 | no length byte to read, empty output | high, not executed | Mcrypt.EmptyBufferReadAsWritten | Mcrypt.DecryptOutput |
| mcrypt.c:635-638 | the length byte is read as a signed `char` and only clamped from above | one block whose last byte decrypts to 0xff, block size 8: length 8 - 8 + (-1) = -1 | clamp to 0..block size, so a wrong key yields whole blocks | medium, not executed | Mcrypt.NegativeLengthAsWritten | Mcrypt.DecryptLeft |

/**
 * The Python binding of libmcrypt (mcrypt.c): the initialisation state
 * machine of an MCRYPT object, the checks on the key and the iv it is
 * given, and the framing of data by `encrypt` and `decrypt`, where the
 * "fixlength" trick stores the length of the last block in the last byte
 * of the padded buffer. The libmcrypt calls are not part of this model:
 * what they return is a parameter, and the cipher with its mode is an
 * opaque, length-preserving transform on the buffer.
 */
module Mcrypt {
  import opened Bits

  datatype Option<T> = None | Some(value: T)

  /** The Python exception a failing call leaves set. */
  datatype ErrorKind = ValueError | TypeError | McryptError | MemoryError

  /**
   * The outcome of a step: success, a Python exception with its message,
   * or a negative libmcrypt code, reported with the text
   * `mcrypt_strerror` gives for it.
   */
  datatype Status = Ok | Error(kind: ErrorKind, message: string) | LibraryError(code: int)

  datatype Result<T> = Success(value: T) | Failure(status: Status)

  /**
   * `INIT_NONE` .. `INIT_DEINIT`: the values of `self->init` (the first
   * four) and the requests `init_mcrypt` serves (all but the first).
   */
  datatype Init = InitNone | InitAny | InitEncrypt | InitDecrypt | InitReinit | InitDeinit

  /**
   * What the libmcrypt calls of `init_mcrypt` and `check_key` answer, and
   * whether its two allocations succeed.
   */
  datatype Library = Library(
    maxKeySize: int,
    keySizes: Option<seq<int>>,
    setStateRc: int,
    deinitRc: int,
    initRc: int,
    keyAlloc: bool,
    ivAlloc: bool)

  /** The Python objects `get_iv_from_obj` tells apart. */
  datatype PyObject = PyNone | PyString(bytes: seq<Byte>) | PyOther

  /** `catch_mcrypt_error`: only a negative code is an error. */
  predicate Failed(rc: int)
  {
    rc < 0
  }

  function Zeros(n: nat): (z: seq<Byte>)
    ensures |z| == n && forall i | 0 <= i < n :: z[i] == 0
  {
    seq(n, _ => 0)
  }

  /** A decimal digit. */
  function Digit(n: int): char
    requires 0 <= n < 10
  {
    "0123456789"[n]
  }

  /** A natural number in decimal, most significant digit first. */
  function Digits(n: nat): (s: string)
    ensures |s| >= 1
  {
    if n < 10 then [Digit(n)] else Digits(n / 10) + [Digit(n % 10)]
  }

  /** An integer as `%d` writes it. */
  function Decimal(n: int): string
  {
    if n < 0 then "-" + Digits(-n) else Digits(n)
  }

  // ---------------------------------------------------------------------
  // The key and the iv

  /**
   * The keys `check_key` accepts: present and non-empty, no longer than
   * the algorithm's maximum, and one of the listed sizes when the
   * algorithm lists its sizes.
   */
  predicate KeyAccepted(key: Option<seq<Byte>>, keySize: int, lib: Library)
  {
    key.Some? && keySize != 0 && !Failed(lib.maxKeySize) && keySize <= lib.maxKeySize
    && (lib.keySizes.Some? ==> keySize in lib.keySizes.value)
  }

  /** `check_key`: the checks in order, each with its own error. */
  method CheckKey(key: Option<seq<Byte>>, keySize: int, lib: Library) returns (s: Status)
    ensures s == Ok <==> KeyAccepted(key, keySize, lib)
    ensures key.None? || keySize == 0 ==> s == Error(ValueError, "you must provide a key")
    ensures key.Some? && keySize != 0 && Failed(lib.maxKeySize) ==> s == LibraryError(lib.maxKeySize)
    ensures key.Some? && keySize != 0 && !Failed(lib.maxKeySize) && s != Ok ==> s == Error(ValueError, "invalid key length")
  {
    if key.None? || keySize == 0 {
      return Error(ValueError, "you must provide a key");
    }
    var maxKeySize := lib.maxKeySize;
    if Failed(maxKeySize) {
      return LibraryError(maxKeySize);
    }
    if keySize > maxKeySize {
      return Error(ValueError, "invalid key length");
    }
    if lib.keySizes.Some? {
      var keySizes := lib.keySizes.value;
      var found := false;
      var i := 0;
      while i != |keySizes|
        invariant 0 <= i <= |keySizes|
        invariant keySize !in keySizes[..i]
      {
        if keySizes[i] == keySize {
          found := true;
          break;
        }
        i := i + 1;
      }
      assert found || keySizes[..i] == keySizes;
      if !found {
        return Error(ValueError, "invalid key length");
      }
      return Ok;
    }
    return Ok;
  }

  /**
   * `get_iv_from_obj`: None means no iv, a string must have exactly the
   * iv size of the algorithm, anything else is refused.
   */
  function GetIvFromObj(ivSize: int, ivobj: PyObject): (r: Result<Option<seq<Byte>>>)
    ensures r.Success? <==> ivobj.PyNone? || (ivobj.PyString? && |ivobj.bytes| == ivSize)
    ensures r.Success? && r.value.Some? ==> |r.value.value| == ivSize
    ensures r.Success? ==> r.value == if ivobj.PyNone? then None else Some(ivobj.bytes)
    ensures ivobj.PyOther? ==> r == Failure(Error(TypeError, "iv must be None or a string"))
  {
    match ivobj
    case PyNone => Success(None)
    case PyString(bytes) =>
      if |bytes| != ivSize then Failure(Error(ValueError, "iv size for this algorithm must be " + Decimal(ivSize)))
      else Success(Some(bytes))
    case PyOther => Failure(Error(TypeError, "iv must be None or a string"))
  }

  /** The iv `init_mcrypt` keeps: a copy of the one given, or zeros. */
  function StoredIv(iv: Option<seq<Byte>>, ivSize: nat): (v: seq<Byte>)
    requires iv.Some? ==> |iv.value| >= ivSize
    ensures |v| == ivSize
    ensures iv.None? ==> forall i | 0 <= i < ivSize :: v[i] == 0
    ensures iv.Some? ==> v == iv.value[..ivSize]
  {
    if iv.Some? then iv.value[..ivSize] else Zeros(ivSize)
  }

  // ---------------------------------------------------------------------
  // The framing of encrypt and decrypt

  /**
   * The length of the buffer `encrypt` fills: the data rounded up to whole
   * blocks, and one block more when fixlength is on and the data ends on
   * a block boundary. It is the least multiple of the block size that
   * holds the data, and with fixlength also a last byte the data does not
   * reach.
   */
  function PaddedLength(d: nat, bs: int, fix: bool): (n: nat)
    requires bs > 0
    ensures n % bs == 0
    ensures fix ==> d < n <= d + bs
    ensures !fix ==> d <= n < d + bs
  {
    var q, r := d / bs, d % bs;
    var m := if !fix && r == 0 then q else q + 1;
    assert (q + 1) * bs == q * bs + bs;
    DivUnique(m * bs, bs, m, 0);
    if !fix && r == 0 then d else d - r + bs
  }

  /**
   * The buffer `encrypt` hands to the cipher: the data, zeros up to the
   * padded length, and with fixlength the length of the last block (as a
   * C char) in the last byte.
   */
  function Padded(data: seq<Byte>, bs: int, fix: bool): (b: seq<Byte>)
    requires bs > 0
    ensures |b| == PaddedLength(|data|, bs, fix)
  {
    var n := PaddedLength(|data|, bs, fix);
    var z := data + Zeros(n - |data|);
    if fix then z[n - 1 := (|data| % bs) % 256] else z
  }

  /** What the padded buffer holds, byte by byte. */
  lemma PaddedContents(data: seq<Byte>, bs: int, fix: bool)
    requires bs > 0
    ensures Padded(data, bs, fix)[..|data|] == data
    ensures forall i | |data| <= i < |Padded(data, bs, fix)| - 1 :: Padded(data, bs, fix)[i] == 0
    ensures fix ==> Padded(data, bs, fix)[|Padded(data, bs, fix)| - 1] == (|data| % bs) % 256
    ensures !fix && |data| < |Padded(data, bs, fix)| ==> Padded(data, bs, fix)[|Padded(data, bs, fix)| - 1] == 0
  {
  }

  /**
   * The buffer of `encrypt`: allocated, zeroed, given the length byte
   * when fixlength is on, then the data copied over its front.
   */
  method EncryptBuffer(data: seq<Byte>, bs: int, fix: bool) returns (buffer: array<Byte>)
    requires bs > 0
    ensures fresh(buffer)
    ensures buffer[..] == Padded(data, bs, fix)
  {
    var numblocks := |data| / bs + 1;
    var leftSize := |data| % bs;
    if !fix && leftSize == 0 {
      numblocks := numblocks - 1;
    }
    var size := numblocks * bs;
    assert size == PaddedLength(|data|, bs, fix) by {
      assert (|data| / bs + 1) * bs == |data| / bs * bs + bs;
    }
    buffer := new Byte[size];
    forall i | 0 <= i < size {
      buffer[i] := 0;
    }
    if fix {
      buffer[size - 1] := leftSize % 256;
    }
    forall i | 0 <= i < |data| {
      buffer[i] := data[i];
    }
    assert buffer[..] == Padded(data, bs, fix);
  }

  /** The number of bytes `decrypt` works on: the whole blocks of the data. */
  function DecryptSize(d: nat, bs: int): (size: nat)
    requires bs > 0
    ensures size <= d && size % bs == 0 && d - size < bs
  {
    DivUnique(d - d % bs, bs, d / bs, 0);
    d - d % bs
  }

  /**
   * The length of the last block after decryption: with fixlength the
   * last byte, read as an unsigned byte and clamped to the block size, and
   * a whole block when there is no last byte; without fixlength a whole
   * block.
   */
  function DecryptLeft(plain: seq<Byte>, bs: int, fix: bool): (left: int)
    requires bs > 0
    ensures 0 <= left <= bs
  {
    if fix && |plain| > 0 then
      (if plain[|plain| - 1] > bs then bs else plain[|plain| - 1])
    else bs
  }

  /** The bytes `decrypt` returns from the decrypted whole blocks. */
  function DecryptOutput(plain: seq<Byte>, bs: int, fix: bool): (out: seq<Byte>)
    requires bs > 0 && |plain| % bs == 0
    ensures |plain| - bs <= |out| <= |plain|
    ensures out == plain[..|out|]
    ensures !fix ==> out == plain
  {
    if |plain| == 0 then [] else plain[..|plain| - bs + DecryptLeft(plain, bs, fix)]
  }

  /**
   * The fixlength trick undoes the padding: when the cipher gives back
   * the buffer `encrypt` built, `decrypt` with fixlength returns exactly
   * the data. The length byte holds the length of the last block only
   * for blocks of at most 256 bytes.
   */
  lemma {:induction false} FixlengthRoundTrip(data: seq<Byte>, bs: int)
    requires 0 < bs <= 256
    ensures DecryptOutput(Padded(data, bs, true), bs, true) == data
  {
    var b := Padded(data, bs, true);
    PaddedContents(data, bs, true);
    var d, n := |data|, |b|;
    assert b[n - 1] == d % bs;
    assert n - bs + DecryptLeft(b, bs, true) == d;
  }

  /** Without fixlength `decrypt` returns the data followed by the zero padding. */
  lemma NoFixlengthRoundTrip(data: seq<Byte>, bs: int)
    requires bs > 0
    ensures DecryptOutput(Padded(data, bs, false), bs, false) == data + Zeros(|Padded(data, bs, false)| - |data|)
  {
    var b := Padded(data, bs, false);
    assert b == data + Zeros(|b| - |data|);
    assert DecryptOutput(b, bs, false) == b;
  }

  /**
   * Decrypting without fixlength what was encrypted with it shows the
   * length byte: the output is the whole buffer, ending in the length of
   * the last block.
   */
  lemma FixlengthByteVisible(data: seq<Byte>, bs: int)
    requires 0 < bs <= 256
    ensures var out := DecryptOutput(Padded(data, bs, true), bs, false);
            |out| > |data| && out[..|data|] == data && out[|out| - 1] == |data| % bs
  {
    var b := Padded(data, bs, true);
    PaddedContents(data, bs, true);
    var r := |data| % bs;
    assert b[|b| - 1] == r % 256 == r;
    assert DecryptOutput(b, bs, false) == b;
  }

  /**
   * A last byte that cannot be a length, such as the last byte of whole
   * blocks encrypted without fixlength, is clamped to the block size, so
   * `decrypt` with fixlength returns the blocks whole.
   */
  lemma FixlengthClampsWholeBlocks(plain: seq<Byte>, bs: int)
    requires bs > 0 && |plain| > 0 && |plain| % bs == 0 && plain[|plain| - 1] >= bs
    ensures DecryptOutput(plain, bs, true) == plain
  {
  }

  /**
   * The buffer of `decrypt`: the whole blocks of the data. The copy takes
   * only as many bytes as the buffer holds.
   */
  method DecryptBuffer(data: seq<Byte>, bs: int) returns (buffer: array<Byte>)
    requires bs > 0
    ensures fresh(buffer)
    ensures buffer[..] == data[..DecryptSize(|data|, bs)]
  {
    var numblocks := |data| / bs;
    var size := numblocks * bs;
    assert size == DecryptSize(|data|, bs);
    buffer := new Byte[size];
    forall i | 0 <= i < size {
      buffer[i] := data[i];
    }
  }

  // ---------------------------------------------------------------------
  // The decrypt framing as the C code has it

  /** The C `char` read of a byte on a platform where `char` is signed. */
  function SignedChar(b: Byte): int
  {
    if b < 128 then b else b - 256
  }

  /** `left_size` as the C code computes it, with a signed `char`. */
  function DecryptLeftAsWritten(last: Byte, bs: int, fix: bool): int
  {
    if fix then (if SignedChar(last) > bs then bs else SignedChar(last)) else bs
  }

  /** The length `decrypt` passes to the string constructor. */
  function DecryptLengthAsWritten(size: int, last: Byte, bs: int, fix: bool): int
  {
    size - bs + DecryptLeftAsWritten(last, bs, fix)
  }

  /**
   * A last byte of 128 or more is read as a negative number and slips past
   * the clamp, so the output is cut into the blocks before the last one;
   * for a single block with last byte 0xff the length is -1. The
   * corrected reading never drops more than the last block.
   */
  lemma NegativeLengthAsWritten(plain: seq<Byte>, bs: int)
    requires bs > 0 && |plain| > 0 && |plain| % bs == 0 && plain[|plain| - 1] >= 128
    ensures DecryptLengthAsWritten(|plain|, plain[|plain| - 1], bs, true) < |plain| - bs
    ensures |plain| - bs <= |DecryptOutput(plain, bs, true)|
    ensures |plain| == bs && plain[|plain| - 1] == 0xff ==> DecryptLengthAsWritten(|plain|, plain[|plain| - 1], bs, true) == -1
  {
  }

  /**
   * Up to blocks of 128 bytes the signed reading is harmless on what
   * `encrypt` framed: the length byte is below 128, and the C length is
   * the length of the corrected output.
   */
  lemma FixlengthSignedAgrees(data: seq<Byte>, bs: int)
    requires 0 < bs <= 128
    ensures var b := Padded(data, bs, true);
      DecryptLengthAsWritten(|b|, b[|b| - 1], bs, true) == |DecryptOutput(b, bs, true)| == |data|
  {
    PaddedContents(data, bs, true);
    FixlengthRoundTrip(data, bs);
  }

  /** The index of the length byte, `blockbuffer_size - 1`, read whenever fixlength is on. */
  function LastByteIndexAsWritten(d: nat, bs: int): int
    requires bs > 0
  {
    DecryptSize(d, bs) - 1
  }

  /**
   * Data shorter than a block with fixlength on makes the code read the
   * byte before an empty buffer; the corrected reading has no last byte
   * to read and returns nothing.
   */
  lemma EmptyBufferReadAsWritten(data: seq<Byte>, bs: int)
    requires 0 < bs && |data| < bs
    ensures LastByteIndexAsWritten(|data|, bs) == -1
    ensures DecryptOutput(data[..DecryptSize(|data|, bs)], bs, true) == []
  {
  }

  /** The number of bytes the `memcpy` of `decrypt` copies: all of the data. */
  function DecryptCopyLengthAsWritten(d: nat): nat
  {
    d
  }

  /**
   * Data that is not a whole number of blocks is copied in full into a
   * buffer of its whole blocks, writing its last `d % bs` bytes past the
   * end (9 bytes into 8); only whole blocks fit.
   */
  lemma DecryptCopyOverflowAsWritten(d: nat, bs: int)
    requires bs > 0
    ensures DecryptCopyLengthAsWritten(d) == DecryptSize(d, bs) + d % bs
    ensures DecryptCopyLengthAsWritten(d) > DecryptSize(d, bs) <==> d % bs != 0
  {
  }

  // ---------------------------------------------------------------------
  // The MCRYPT object

  /** The fields of an MCRYPT object that `init_mcrypt` writes. */
  datatype InitFields = InitFields(init: Init, key: Option<seq<Byte>>, iv: Option<seq<Byte>>, keySize: int)

  /** The fields after `init_mcrypt` frees the stored key and iv. */
  const Cleared := InitFields(InitNone, None, None, 0)

  /**
   * An MCRYPT object: the algorithm's block mode, block size and iv size,
   * fixed when it is created, and the state `init_mcrypt` keeps, with
   * the copies of the key and iv that `reinit` reuses.
   */
  class McryptObject {
    var init: Init
    var initKey: Option<seq<Byte>>
    var initIv: Option<seq<Byte>>
    var initKeySize: int
    var blockMode: bool
    var blockSize: int
    var ivSize: int

    /**
     * The state is one of the four the object can be in, and whenever it
     * is initialised the stored key and iv are there, of the recorded
     * sizes, for a hard reinit to use.
     */
    ghost predicate Valid()
      reads this
    {
      (init == InitNone || init == InitAny || init == InitEncrypt || init == InitDecrypt)
      && ivSize >= 0 && (blockMode ==> blockSize > 0)
      && (init != InitNone ==>
            initKey.Some? && initIv.Some? && |initKey.value| == initKeySize && |initIv.value| == ivSize)
    }

    ghost function Fields(): InitFields
      reads this
    {
      InitFields(init, initKey, initIv, initKeySize)
    }

    /** A fresh object, with the sizes the library reports for the algorithm and mode. */
    constructor (blockMode: bool, blockSize: int, ivSize: nat)
      requires blockMode ==> blockSize > 0
      ensures Valid() && Fields() == Cleared
      ensures this.blockMode == blockMode && this.blockSize == blockSize && this.ivSize == ivSize
    {
      init := InitNone;
      initKey := None;
      initIv := None;
      initKeySize := 0;
      this.blockMode := blockMode;
      this.blockSize := blockSize;
      this.ivSize := ivSize;
    }

    /**
     * `init_mcrypt`: serves a request from the current state. An encrypt
     * or decrypt request only switches between the initialised states;
     * a reinit restores the initial state of the cipher, quickly or by a
     * full deinit and init with the stored key and iv; a deinit, and an
     * init with an accepted key, first free the stored key and iv, and an
     * init then stores copies of the new ones.
     */
    method InitMcrypt(request: Init, key: Option<seq<Byte>>, keySize: int, iv: Option<seq<Byte>>, lib: Library)
      returns (s: Status)
      requires Valid() && request != InitNone
      requires key.Some? ==> 0 <= keySize <= |key.value|
      requires iv.Some? ==> |iv.value| >= ivSize
      modifies this
      ensures Valid()
      ensures blockMode == old(blockMode) && blockSize == old(blockSize) && ivSize == old(ivSize)
      // encrypt and decrypt requests
      ensures (request == InitEncrypt || request == InitDecrypt) && (old(init) == request || old(init) == InitAny) ==>
                s == Ok && Fields() == old(Fields()).(init := request)
      ensures (request == InitEncrypt || request == InitDecrypt) && old(init) != request && old(init) != InitAny ==>
                Fields() == old(Fields())
                && s == Error(McryptError, if old(init) != InitNone then "reinit/init method not run" else "init method not run")
      // reinit
      ensures request == InitReinit && old(init) == InitNone ==>
                s == Error(McryptError, "reinit called without a previous init") && Fields() == old(Fields())
      ensures request == InitReinit && old(init) != InitNone && lib.setStateRc == 0 ==>
                s == Ok && Fields() == old(Fields()).(init := InitAny)
      ensures request == InitReinit && old(init) != InitNone && lib.setStateRc != 0 && Failed(lib.deinitRc) ==>
                s == LibraryError(lib.deinitRc) && Fields() == old(Fields())
      ensures request == InitReinit && old(init) != InitNone && lib.setStateRc != 0 && !Failed(lib.deinitRc) ==>
                if Failed(lib.initRc) then s == LibraryError(lib.initRc) && Fields() == Cleared
                else s == Ok && Fields() == old(Fields()).(init := InitAny)
      // deinit
      ensures request == InitDeinit ==>
                Fields() == Cleared
                && s == if old(init) != InitNone && Failed(lib.deinitRc) then LibraryError(lib.deinitRc) else Ok
      // init
      ensures request == InitAny && !KeyAccepted(key, keySize, lib) ==> s != Ok && Fields() == old(Fields())
      ensures request == InitAny && KeyAccepted(key, keySize, lib) ==>
                InitOutcome(old(init), s, Fields(), key.value[..keySize], StoredIv(iv, ivSize), lib)
    {
      var curtype := init;
      var action := InitNone;
      match request {
        case InitAny =>
          var checked := CheckKey(key, keySize, lib);
          if checked != Ok {
            return checked;
          }
          action := InitAny;
        case InitEncrypt =>
          s := RequestCipher(request);
          return;
        case InitDecrypt =>
          s := RequestCipher(request);
          return;
        case InitReinit =>
          if curtype == InitNone {
            return Error(McryptError, "reinit called without a previous init");
          }
          action := InitReinit;
        case InitDeinit =>
          action := InitDeinit;
      }
      if action == InitReinit {
        s := Reinit(lib);
      } else {
        s := Restart(action, key, keySize, iv, lib);
      }
    }

    /**
     * `MCRYPT_init`: the iv object is checked first, then the object is
     * initialised with the key, whose length is the key size.
     */
    method Init(key: seq<Byte>, ivobj: PyObject, lib: Library) returns (s: Status)
      requires Valid()
      modifies this
      ensures Valid()
      ensures blockMode == old(blockMode) && blockSize == old(blockSize) && ivSize == old(ivSize)
      ensures GetIvFromObj(ivSize, ivobj).Failure? ==>
                s == GetIvFromObj(ivSize, ivobj).status && Fields() == old(Fields())
      ensures GetIvFromObj(ivSize, ivobj).Success? && !KeyAccepted(Some(key), |key|, lib) ==>
                s != Ok && Fields() == old(Fields())
      ensures GetIvFromObj(ivSize, ivobj).Success? && KeyAccepted(Some(key), |key|, lib) ==>
                InitOutcome(old(init), s, Fields(), key, StoredIv(GetIvFromObj(ivSize, ivobj).value, ivSize), lib)
    {
      var iv := GetIvFromObj(ivSize, ivobj);
      if iv.Failure? {
        return iv.status;
      }
      assert key[..|key|] == key;
      s := InitMcrypt(InitAny, Some(key), |key|, iv.value, lib);
    }

    /** The encrypt and decrypt requests: allowed from the same state and from ANY. */
    method RequestCipher(request: Init) returns (s: Status)
      requires Valid() && (request == InitEncrypt || request == InitDecrypt)
      modifies this
      ensures Valid()
      ensures blockMode == old(blockMode) && blockSize == old(blockSize) && ivSize == old(ivSize)
      ensures old(init) == request || old(init) == InitAny ==> s == Ok && Fields() == old(Fields()).(init := request)
      ensures old(init) != request && old(init) != InitAny ==>
                Fields() == old(Fields())
                && s == Error(McryptError, if old(init) != InitNone then "reinit/init method not run" else "init method not run")
    {
      var curtype := init;
      if curtype == request || curtype == InitAny {
        init := request;
        s := Ok;
      } else if curtype != InitNone {
        s := Error(McryptError, "reinit/init method not run");
      } else {
        s := Error(McryptError, "init method not run");
      }
    }

    /**
     * A reinit from an initialised state: the quick restore of the cipher
     * state, else a deinit followed by an init with the stored key and iv,
     * whose failure forgets them.
     */
    method Reinit(lib: Library) returns (s: Status)
      requires Valid() && init != InitNone
      modifies this
      ensures Valid()
      ensures blockMode == old(blockMode) && blockSize == old(blockSize) && ivSize == old(ivSize)
      ensures lib.setStateRc == 0 ==> s == Ok && Fields() == old(Fields()).(init := InitAny)
      ensures lib.setStateRc != 0 && Failed(lib.deinitRc) ==> s == LibraryError(lib.deinitRc) && Fields() == old(Fields())
      ensures lib.setStateRc != 0 && !Failed(lib.deinitRc) ==>
                if Failed(lib.initRc) then s == LibraryError(lib.initRc) && Fields() == Cleared
                else s == Ok && Fields() == old(Fields()).(init := InitAny)
    {
      var rc := lib.setStateRc;
      if rc == 0 {
        init := InitAny;
        return Ok;
      }
      rc := lib.deinitRc;
      if Failed(rc) {
        return LibraryError(rc);
      }
      rc := lib.initRc;
      if Failed(rc) {
        init := InitNone;
        initIv := None;
        initKey := None;
        initKeySize := 0;
        return LibraryError(rc);
      }
      init := InitAny;
      s := Ok;
    }

    /**
     * A deinit, or an init whose key was accepted: the stored key and iv
     * are freed and the cipher deinitialised if it was initialised; an
     * init then stores copies of the key and of the iv (zeros when none
     * was given) and initialises the cipher.
     */
    method Restart(action: Init, key: Option<seq<Byte>>, keySize: int, iv: Option<seq<Byte>>, lib: Library)
      returns (s: Status)
      requires Valid() && (action == InitAny || action == InitDeinit)
      requires action == InitAny ==> key.Some? && 0 <= keySize <= |key.value|
      requires iv.Some? ==> |iv.value| >= ivSize
      modifies this
      ensures Valid()
      ensures blockMode == old(blockMode) && blockSize == old(blockSize) && ivSize == old(ivSize)
      ensures action == InitDeinit ==>
                Fields() == Cleared
                && s == if old(init) != InitNone && Failed(lib.deinitRc) then LibraryError(lib.deinitRc) else Ok
      ensures action == InitAny ==> InitOutcome(old(init), s, Fields(), key.value[..keySize], StoredIv(iv, ivSize), lib)
    {
      var curtype := init;
      init := InitNone;
      initIv := None;
      initKey := None;
      initKeySize := 0;
      if curtype != InitNone {
        var rc := lib.deinitRc;
        if Failed(rc) {
          return LibraryError(rc);
        }
      }
      if action == InitAny {
        if !lib.keyAlloc {
          return Error(MemoryError, "");
        }
        initKey := Some(key.value[..keySize]);
        if !lib.ivAlloc {
          return Error(MemoryError, "");
        }
        initIv := Some(StoredIv(iv, ivSize));
        var rc := lib.initRc;
        if Failed(rc) {
          initIv := None;
          initKey := None;
          return LibraryError(rc);
        }
        initKeySize := keySize;
        init := InitAny;
      }
      s := Ok;
    }

    /**
     * `MCRYPT_encrypt` on a block or stream cipher: the object must be
     * initialised for encryption, the data is framed into whole blocks
     * (a stream cipher has blocks of one byte and no fixlength), and the
     * cipher transforms the buffer.
     */
    method Encrypt(data: seq<Byte>, fixlength: int, lib: Library, bufferAlloc: bool, rc: int,
                   encipher: seq<Byte> -> seq<Byte>)
      returns (r: Result<seq<Byte>>)
      requires Valid()
      modifies this
      ensures Valid()
      ensures blockMode == old(blockMode) && blockSize == old(blockSize) && ivSize == old(ivSize)
      ensures old(init) == InitEncrypt || old(init) == InitAny ==>
                Fields() == old(Fields()).(init := InitEncrypt)
                && r == if !bufferAlloc then Failure(Error(MemoryError, ""))
                        else if Failed(rc) then Failure(LibraryError(rc))
                        else Success(encipher(Padded(data, BlockSize(), blockMode && fixlength != 0)))
      ensures old(init) != InitEncrypt && old(init) != InitAny ==>
                Fields() == old(Fields())
                && r == Failure(Error(McryptError, if old(init) != InitNone then "reinit/init method not run" else "init method not run"))
    {
      var bs: int;
      var fix := fixlength != 0;
      if blockMode {
        bs := blockSize;
      } else {
        bs := 1;
        fix := false;
      }
      var s := InitMcrypt(InitEncrypt, None, 0, None, lib);
      if s != Ok {
        return Failure(s);
      }
      if !bufferAlloc {
        return Failure(Error(MemoryError, ""));
      }
      var buffer := EncryptBuffer(data, bs, fix);
      if Failed(rc) {
        return Failure(LibraryError(rc));
      }
      r := Success(encipher(buffer[..]));
    }

    /** The block size the framing uses: one byte for a stream cipher. */
    function BlockSize(): (bs: int)
      reads this
      requires Valid()
      ensures bs > 0
    {
      if blockMode then blockSize else 1
    }

    /**
     * `MCRYPT_decrypt`: the object must be initialised for decryption,
     * the whole blocks of the data are decrypted, and with fixlength the
     * last byte says how much of the last block to return.
     */
    method Decrypt(data: seq<Byte>, fixlength: int, lib: Library, bufferAlloc: bool, rc: int,
                   decipher: seq<Byte> -> seq<Byte>)
      returns (r: Result<seq<Byte>>)
      requires Valid() && LengthPreserving(decipher)
      modifies this
      ensures Valid()
      ensures blockMode == old(blockMode) && blockSize == old(blockSize) && ivSize == old(ivSize)
      ensures old(init) == InitDecrypt || old(init) == InitAny ==>
                Fields() == old(Fields()).(init := InitDecrypt)
                && r == if !bufferAlloc then Failure(Error(MemoryError, ""))
                        else if Failed(rc) then Failure(LibraryError(rc))
                        else Success(DecryptOutput(decipher(data[..DecryptSize(|data|, BlockSize())]),
                                                   BlockSize(), blockMode && fixlength != 0))
      ensures old(init) != InitDecrypt && old(init) != InitAny ==>
                Fields() == old(Fields())
                && r == Failure(Error(McryptError, if old(init) != InitNone then "reinit/init method not run" else "init method not run"))
    {
      var bs: int;
      var fix := fixlength != 0;
      if blockMode {
        bs := blockSize;
      } else {
        bs := 1;
        fix := false;
      }
      var s := InitMcrypt(InitDecrypt, None, 0, None, lib);
      if s != Ok {
        return Failure(s);
      }
      if !bufferAlloc {
        return Failure(Error(MemoryError, ""));
      }
      var buffer := DecryptBuffer(data, bs);
      var plain := decipher(buffer[..]);
      assert |plain| == |buffer[..]|;
      if Failed(rc) {
        return Failure(LibraryError(rc));
      }
      r := Success(DecryptOutput(plain, bs, fix));
    }
  }

  /**
   * The outcome of an init whose key was accepted, from the state `cur`:
   * the stored key and iv are gone if the cipher cannot be deinitialised
   * or the key copy cannot be allocated; an iv that cannot be allocated
   * leaves the key copy behind, unreachable once the state says NONE; a
   * failing cipher init forgets both; otherwise the object is in ANY with
   * the copies stored.
   */
  ghost predicate InitOutcome(cur: Init, s: Status, f: InitFields, key: seq<Byte>, iv: seq<Byte>, lib: Library)
  {
    if cur != InitNone && Failed(lib.deinitRc) then s == LibraryError(lib.deinitRc) && f == Cleared
    else if !lib.keyAlloc then s == Error(MemoryError, "") && f == Cleared
    else if !lib.ivAlloc then s == Error(MemoryError, "") && f == InitFields(InitNone, Some(key), None, 0)
    else if Failed(lib.initRc) then s == LibraryError(lib.initRc) && f == Cleared
    else s == Ok && f == InitFields(InitAny, Some(key), Some(iv), |key|)
  }

  /** The cipher with its mode keeps the length of the buffer. */
  ghost predicate LengthPreserving(f: seq<Byte> -> seq<Byte>)
  {
    forall b: seq<Byte> :: |f(b)| == |b|
  }

  /**
   * Encrypting with fixlength and decrypting with fixlength gives back
   * the data whenever the cipher decrypts what it encrypted: the padded
   * buffer is whole blocks, so `decrypt` takes all of it.
   */
  lemma EncryptDecryptFixlength(data: seq<Byte>, bs: int, encipher: seq<Byte> -> seq<Byte>, decipher: seq<Byte> -> seq<Byte>)
    requires 0 < bs <= 256 && LengthPreserving(encipher) && LengthPreserving(decipher)
    requires decipher(encipher(Padded(data, bs, true))) == Padded(data, bs, true)
    ensures var c := encipher(Padded(data, bs, true));
            DecryptOutput(decipher(c[..DecryptSize(|c|, bs)]), bs, true) == data
  {
    var p := Padded(data, bs, true);
    var c := encipher(p);
    assert |c| == |p|;
    assert DecryptSize(|c|, bs) == |c|;
    assert c[..DecryptSize(|c|, bs)] == c;
    FixlengthRoundTrip(data, bs);
  }
}

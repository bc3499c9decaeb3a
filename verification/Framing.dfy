/** The framing of callback messages (backend/poi_admin/webhooks/crypto.py): sixteen random bytes, the
    message length, the message and the AppID, padded to 32 bytes, encrypted and written as text.
    The cipher, base64, UTF-8 and the reading of the key are parameters. */
module Framing {
  import opened Wrappers

  type Byte = n: int | 0 <= n < 256

  type Bytes = seq<Byte>

  /** `key` reads the 32 key bytes, if the text holds them; `decipher` refuses data that is not
      whole blocks, `fromText` text that is not base64, `utf8` and `fromUtf8` what is not UTF-8. */
  datatype Codec = Codec(
    key: string -> Option<Bytes>,
    encipher: (Bytes, Bytes) -> Bytes,
    decipher: (Bytes, Bytes) -> Option<Bytes>,
    toText: Bytes -> string,
    fromText: string -> Option<Bytes>,
    utf8: string -> Option<Bytes>,
    fromUtf8: Bytes -> Option<string>)

  /** The pairs of functions undo each other: AES-CBC on whole blocks of 16 bytes, base64 on any
      bytes, UTF-8 in both directions. */
  ghost predicate IsSound(c: Codec) {
    && (forall k, x | |x| % 16 == 0 :: c.decipher(k, c.encipher(k, x)) == Some(x))
    && (forall x :: c.fromText(c.toText(x)) == Some(x))
    && (forall s | c.utf8(s).Some? :: c.fromUtf8(c.utf8(s).value) == Some(s))
    && (forall b | c.fromUtf8(b).Some? :: c.utf8(c.fromUtf8(b).value) == Some(b))
  }

  datatype FrameError =
    | InvalidKey | NotEncodable | TooLong
    | NotDecipherable | InvalidPadding | FrameTooShort | InvalidLength | NotDecodable | NotComparable | OtherApp

  const WORD: nat := 0x1_0000_0000

  /** Four bytes, most significant first. */
  function Word(n: nat): (r: Bytes)
    requires n < WORD
    ensures |r| == 4
  {
    [n / 0x100_0000, n / 0x1_0000 % 0x100, n / 0x100 % 0x100, n % 0x100]
  }

  function FromWord(b: Bytes): nat
    requires |b| == 4
  {
    var b0: int, b1: int, b2: int, b3: int := b[0], b[1], b[2], b[3];
    b0 * 0x100_0000 + b1 * 0x1_0000 + b2 * 0x100 + b3
  }

  lemma WordsAreNumbers(n: nat, b: Bytes)
    requires n < WORD && |b| == 4
    ensures FromWord(Word(n)) == n
    ensures FromWord(b) < WORD && Word(FromWord(b)) == b
  {
    var m := FromWord(b);
    var b0: int, b1: int, b2: int := b[0], b[1], b[2];
    assert m / 0x100 == b0 * 0x1_0000 + b1 * 0x100 + b2;
    assert m / 0x1_0000 == b0 * 0x100 + b1;
    assert m / 0x100_0000 == b0;
  }

  /** The most significant byte comes first. */
  lemma WordsAreBigEndian(n: nat)
    requires n < WORD
    ensures var b0: int, b1: int, b2: int, b3: int := Word(n)[0], Word(n)[1], Word(n)[2], Word(n)[3];
            n == ((b0 * 256 + b1) * 256 + b2) * 256 + b3
  {
    WordsAreNumbers(n, Word(n));
  }

  // ---------------------------------------------------------------- padding

  function Copies(b: Byte, n: nat): (r: Bytes)
    ensures |r| == n && forall i | 0 <= i < n :: r[i] == b
  {
    seq(n, _ => b)
  }

  lemma MultiplesLeaveNothing(n: nat, size: nat, blocks: nat)
    requires size in {16, 32} && n == size * blocks
    ensures n % size == 0
  {
    var q, m := n / size, n % size;
    assert size == 16 ==> 16 * blocks == 16 * q + m;
    assert size == 32 ==> 32 * blocks == 32 * q + m;
    assert q == blocks;
  }

  function PadSize(n: nat): (r: Byte)
    ensures 1 <= r <= 32 && (n + r) % 32 == 0 && (n + r) % 16 == 0
  {
    MultiplesLeaveNothing(n + (32 - n % 32), 32, n / 32 + 1);
    MultiplesLeaveNothing(n + (32 - n % 32), 16, 2 * (n / 32 + 1));
    32 - n % 32
  }

  function Pad(x: Bytes): Bytes {
    x + Copies(PadSize(|x|), PadSize(|x|))
  }

  function Unpad(y: Bytes): Option<Bytes> {
    if y == [] then None
    else
      var size := y[|y| - 1];
      if size < 1 || size > 32 || y[if size > |y| then 0 else |y| - size..] != Copies(size, size) then None
      else Some(y[..|y| - size])
  }

  /** Padding is undone by stripping it, for data of any length. */
  lemma UnpadUndoesPad(x: Bytes)
    ensures Unpad(Pad(x)) == Some(x) && |Pad(x)| % 32 == 0 && |Pad(x)| % 16 == 0
  {
    var n := PadSize(|x|);
    assert Pad(x)[|x|..] == Copies(n, n) && Pad(x)[..|x|] == x;
  }

  /** The last byte says how many there are, and all of them say so: one to 32. */
  lemma PaddingIs(x: Bytes)
    ensures var n := |Pad(x)| - |x|;
            1 <= n <= 32 && Pad(x)[..|x|] == x && forall i | |x| <= i < |Pad(x)| :: Pad(x)[i] == n
  {
  }

  /** Only such padding is stripped. */
  lemma StrippedIsPadding(y: Bytes)
    ensures Unpad(y).Some? <==>
              y != [] && 1 <= y[|y| - 1] <= 32 && y[|y| - 1] <= |y|
              && forall i | |y| - y[|y| - 1] <= i < |y| :: y[i] == y[|y| - 1]
    ensures Unpad(y).Some? ==> Unpad(y).value == y[..|y| - y[|y| - 1]]
  {
    if y != [] && 1 <= y[|y| - 1] <= 32 && y[|y| - 1] <= |y| {
      var size := y[|y| - 1];
      var tail := y[|y| - size..];
      assert forall i | 0 <= i < size :: tail[i] == y[|y| - size + i];
      assert forall i | |y| - size <= i < |y| :: y[i] == tail[i - (|y| - size)];
    }
  }

  /** What was stripped is put back by padding exactly when the padded data was a multiple of 32
      bytes. */
  lemma PadUndoesUnpad(y: Bytes)
    requires Unpad(y).Some?
    ensures Pad(Unpad(y).value) == y <==> |y| % 32 == 0
  {
    var size, z := y[|y| - 1], Unpad(y).value;
    assert y == z + Copies(size, size);
    if |y| % 32 == 0 {
      assert PadSize(|z|) == size;
    } else {
      UnpadUndoesPad(z);
    }
  }

  // ---------------------------------------------------------------- frames

  function Frame(c: Codec, nonce: Bytes, message: string, app: string): Result<Bytes, FrameError> {
    var m, a := c.utf8(message), c.utf8(app);
    if m.None? then Err(NotEncodable)
    else if |m.value| >= WORD then Err(TooLong)
    else if a.None? then Err(NotEncodable)
    else Ok(nonce + Word(|m.value|) + m.value + a.value)
  }

  predicate IsAscii(s: string) {
    forall i | 0 <= i < |s| :: s[i] as int < 128
  }

  /** The comparison of AppIDs accepts ASCII text only and raises an error on anything else. */
  function Unframe(c: Codec, frame: Bytes, app: string): Result<string, FrameError> {
    if |frame| < 20 then Err(FrameTooShort)
    else
      var end := 20 + FromWord(frame[16..20]);
      if end > |frame| then Err(InvalidLength)
      else
        var message, embedded := c.fromUtf8(frame[20..end]), c.fromUtf8(frame[end..]);
        if message.None? || embedded.None? then Err(NotDecodable)
        else if !IsAscii(embedded.value) || !IsAscii(app) then Err(NotComparable)
        else if embedded.value != app then Err(OtherApp)
        else Ok(message.value)
  }

  function Encrypt(c: Codec, nonce: Bytes, message: string, keyText: string, app: string): Result<string, FrameError> {
    var key := c.key(keyText);
    if key.None? then Err(InvalidKey)
    else
      var frame := Frame(c, nonce, message, app);
      if frame.Err? then Err(frame.error)
      else Ok(c.toText(c.encipher(key.value, Pad(frame.value))))
  }

  function Decrypt(c: Codec, text: string, keyText: string, app: string): Result<string, FrameError> {
    var key := c.key(keyText);
    if key.None? then Err(InvalidKey)
    else
      var ciphertext := c.fromText(text);
      if ciphertext.None? then Err(NotDecipherable)
      else
        var padded := c.decipher(key.value, ciphertext.value);
        if padded.None? then Err(NotDecipherable)
        else
          var frame := Unpad(padded.value);
          if frame.None? then Err(InvalidPadding) else Unframe(c, frame.value, app)
  }

  /** What keeps a message from being encrypted, the first of these naming the error: a bad key, text
      that cannot be encoded, and a length that does not fit into four bytes. */
  lemma EncryptionErrorsAre(c: Codec, nonce: Bytes, message: string, keyText: string, app: string)
    ensures var r, m := Encrypt(c, nonce, message, keyText, app), c.utf8(message);
            var keyed := c.key(keyText).Some?;
            && (r == Err(InvalidKey) <==> !keyed)
            && (r == Err(TooLong) <==> keyed && m.Some? && |m.value| >= 0x1_0000_0000)
            && (r == Err(NotEncodable) <==>
                  keyed && (m.None? || (|m.value| < 0x1_0000_0000 && c.utf8(app).None?)))
            && (r.Ok? <==> keyed && m.Some? && |m.value| < 0x1_0000_0000 && c.utf8(app).Some?)
  {
  }

  /** What keeps a text from being decrypted to a frame; from there on the frame decides. */
  lemma DecryptionErrorsAre(c: Codec, text: string, keyText: string, app: string)
    ensures var r, key, ciphertext := Decrypt(c, text, keyText, app), c.key(keyText), c.fromText(text);
            && (key.None? ==> r == Err(InvalidKey))
            && (key.Some? && ciphertext.None? ==> r == Err(NotDecipherable))
            && (key.Some? && ciphertext.Some? ==>
                  var padded := c.decipher(key.value, ciphertext.value);
                  && (padded.None? ==> r == Err(NotDecipherable))
                  && (padded.Some? && Unpad(padded.value).None? ==> r == Err(InvalidPadding))
                  && (padded.Some? && Unpad(padded.value).Some? ==> r == Unframe(c, Unpad(padded.value).value, app)))
  {
  }

  /** What is wrong with a frame, the first of these naming the error: it is shorter than its header, or
      than its header says; a part is no text; an AppID is not ASCII; the AppIDs differ. */
  lemma FrameErrorsAre(c: Codec, frame: Bytes, app: string)
    ensures var r := Unframe(c, frame, app);
            && (r == Err(FrameTooShort) <==> |frame| < 20)
            && (|frame| >= 20 ==>
                  var end := 20 + FromWord(frame[16..20]);
                  && (r == Err(InvalidLength) <==> |frame| < end)
                  && (end <= |frame| ==>
                        var message, embedded := c.fromUtf8(frame[20..end]), c.fromUtf8(frame[end..]);
                        && (r == Err(NotDecodable) <==> message.None? || embedded.None?)
                        && (message.Some? && embedded.Some? ==>
                              var plain := forall ch | ch in embedded.value + app :: ch < 128 as char;
                              && (r == Err(NotComparable) <==> !plain)
                              && (r == Err(OtherApp) <==> plain && embedded.value != app)
                              && (r == Ok(message.value) <==> plain && embedded.value == app))))
  {
    if |frame| >= 20 && 20 + FromWord(frame[16..20]) <= |frame| {
      var embedded := c.fromUtf8(frame[20 + FromWord(frame[16..20])..]);
      if embedded.Some? { AsciiIs(embedded.value, app); }
    }
  }

  lemma AsciiIs(s: string, t: string)
    ensures IsAscii(s) && IsAscii(t) <==> forall ch | ch in s + t :: ch < 128 as char
  {
    forall ch | IsAscii(s) && IsAscii(t) && ch in s + t ensures ch < 128 as char { assert ch in s || ch in t; }
    forall i | (forall ch | ch in s + t :: ch < 128 as char) && 0 <= i < |s| ensures s[i] < 128 as char {
      assert (s + t)[i] == s[i] && s[i] in s + t;
    }
    forall i | (forall ch | ch in s + t :: ch < 128 as char) && 0 <= i < |t| ensures t[i] < 128 as char {
      assert (s + t)[|s| + i] == t[i] && t[i] in s + t;
    }
  }

  lemma FrameParts(c: Codec, nonce: Bytes, message: string, app: string)
    requires IsSound(c) && |nonce| == 16 && Frame(c, nonce, message, app).Ok?
    ensures var f := Frame(c, nonce, message, app).value;
            var m := c.utf8(message).value;
            && |f| >= 20 + |m| && FromWord(f[16..20]) == |m|
            && f[20..20 + |m|] == m && f[20 + |m|..] == c.utf8(app).value && f[..16] == nonce
  {
    var f := Frame(c, nonce, message, app).value;
    var m := c.utf8(message).value;
    assert f[16..20] == Word(|m|);
    WordsAreNumbers(|m|, f[16..20]);
  }

  /** The messages a frame is accepted for are exactly those it was made from: a frame yields a
      message for an AppID exactly when it is some sixteen bytes framing that message with that
      AppID, and the AppID is ASCII. */
  lemma AcceptedFramesAreFrames(c: Codec, frame: Bytes, message: string, app: string)
    requires IsSound(c)
    ensures Unframe(c, frame, app) == Ok(message)
            <==> IsAscii(app) && exists nonce: Bytes :: |nonce| == 16 && Frame(c, nonce, message, app) == Ok(frame)
  {
    if Unframe(c, frame, app) == Ok(message) {
      var nonce, word := frame[..16], frame[16..20];
      var end := 20 + FromWord(word);
      WordsAreNumbers(0, word);
      assert frame == nonce + word + frame[20..end] + frame[end..];
      assert Frame(c, nonce, message, app) == Ok(frame);
    }
    if IsAscii(app) && exists nonce: Bytes :: |nonce| == 16 && Frame(c, nonce, message, app) == Ok(frame) {
      var nonce: Bytes :| |nonce| == 16 && Frame(c, nonce, message, app) == Ok(frame);
      FrameParts(c, nonce, message, app);
    }
  }

  /** Every message of less than 2^32 bytes comes back unchanged from its encryption exactly when it
      is read with the AppID it was written with, and that AppID is ASCII. */
  lemma DecryptionInvertsEncryption(
    c: Codec, nonce: Bytes, message: string, keyText: string, app: string, reader: string)
    requires IsSound(c) && |nonce| == 16
    requires c.key(keyText).Some? && c.utf8(app).Some?
    requires c.utf8(message).Some? && |c.utf8(message).value| < WORD
    ensures var sent := Encrypt(c, nonce, message, keyText, app);
            && sent.Ok?
            && (Decrypt(c, sent.value, keyText, reader) == Ok(message) <==> reader == app && IsAscii(app))
            && (reader != app || !IsAscii(app) ==> Decrypt(c, sent.value, keyText, reader).Err?)
  {
    var frame := Frame(c, nonce, message, app).value;
    FrameParts(c, nonce, message, app);
    assert Decrypt(c, Encrypt(c, nonce, message, keyText, app).value, keyText, reader) == Unframe(c, frame, reader) by {
      DecryptionReachesTheFrame(c, frame, keyText, reader);
    }
  }

  lemma DecryptionReachesTheFrame(c: Codec, frame: Bytes, keyText: string, reader: string)
    requires IsSound(c) && c.key(keyText).Some?
    ensures Decrypt(c, c.toText(c.encipher(c.key(keyText).value, Pad(frame))), keyText, reader)
            == Unframe(c, frame, reader)
  {
    var key, padded := c.key(keyText).value, Pad(frame);
    assert Unpad(padded) == Some(frame) && |padded| % 16 == 0 by { UnpadUndoesPad(frame); }
    var ciphertext := c.encipher(key, padded);
    assert c.decipher(key, ciphertext) == Some(padded);
    assert c.fromText(c.toText(ciphertext)) == Some(ciphertext);
  }
}

/** lab/backup_offsite.py: an encrypted set is written in whatever pieces tar writes, read back as blocks, and read from
    those in whatever sizes tar asks for. The cipher is a key stream and an authentication tag, both parameters. */
module OffsiteStream {
  import opened Prelude
  import opened BackupRetention

  type Byte = bv8
  type Bytes = seq<Byte>

  const MAGIC: Bytes := [0x53, 0x42, 0x42, 0x4B, 0x55, 0x50, 0x31, 0x0A]
  const NONCE := 12
  const TAG := 16
  const BLOCK := 0x10_0000

  /** AES-GCM as this code uses it: the byte of the key stream at a position, and the tag of the name and the
      ciphertext. */
  datatype Cipher = Cipher(stream: (Bytes, Bytes, nat) -> Byte, tag: (Bytes, Bytes, Bytes, Bytes) -> Bytes)

  ghost predicate TagsFit(c: Cipher) {
    forall key, nonce, aad, text :: |c.tag(key, nonce, aad, text)| == TAG
  }

  function Aad(name: Bytes): Bytes {
    MAGIC + name
  }

  /** The text with the key stream from `start` on. */
  function Streamed(c: Cipher, key: Bytes, nonce: Bytes, start: nat, text: Bytes): (r: Bytes)
    ensures |r| == |text|
  {
    seq(|text|, i requires 0 <= i < |text| => text[i] ^ c.stream(key, nonce, start + i))
  }

  lemma XorTwice(a: Byte, b: Byte)
    ensures (a ^ b) ^ b == a
  {
  }

  lemma StreamedTwice(c: Cipher, key: Bytes, nonce: Bytes, start: nat, text: Bytes)
    ensures Streamed(c, key, nonce, start, Streamed(c, key, nonce, start, text)) == text
  {
    var once := Streamed(c, key, nonce, start, text);
    forall i | 0 <= i < |text| ensures Streamed(c, key, nonce, start, once)[i] == text[i] {
      XorTwice(text[i], c.stream(key, nonce, start + i));
    }
  }

  lemma StreamedInPieces(c: Cipher, key: Bytes, nonce: Bytes, start: nat, a: Bytes, b: Bytes)
    ensures Streamed(c, key, nonce, start, a + b) ==
            Streamed(c, key, nonce, start, a) + Streamed(c, key, nonce, start + |a|, b)
  {
  }

  /** A whole set: the format's mark, the nonce, the encrypted text and the tag. */
  function Sealed(c: Cipher, key: Bytes, nonce: Bytes, name: Bytes, text: Bytes): Bytes {
    var body := Streamed(c, key, nonce, 0, text);
    MAGIC + nonce + body + c.tag(key, nonce, Aad(name), body)
  }

  /** Byte for byte: the mark, the nonce, each byte of the text with the key stream of that key and nonce, and the tag. */
  lemma SealedBytes(c: Cipher, key: Bytes, nonce: Bytes, name: Bytes, text: Bytes, i: nat)
    requires i < |text|
    ensures var file := Sealed(c, key, nonce, name, text);
            && |file| >= 8 + |nonce| + |text| && file[..8 + |nonce|] == MAGIC + nonce
            && file[8 + |nonce| + i] == text[i] ^ c.stream(key, nonce, i)
  {
    var body := Streamed(c, key, nonce, 0, text);
    assert Sealed(c, key, nonce, name, text)[8 + |nonce| + i] == body[i];
  }

  /** A write-only file: plaintext in, the set out. */
  class Encrypting {
    const cipher: Cipher
    const key: Bytes
    const nonce: Bytes
    const name: Bytes
    var handle: Bytes
    var encrypted: Bytes    // what the encryptor has seen of the ciphertext
    ghost var written: Bytes
    ghost var finished: bool

    ghost predicate Valid()
      reads this
    {
      && encrypted == Streamed(cipher, key, nonce, 0, written)
      && handle == if finished then Sealed(cipher, key, nonce, name, written) else MAGIC + nonce + encrypted
    }

    constructor (cipher: Cipher, key: Bytes, nonce: Bytes, name: Bytes)
      ensures Valid() && !finished && written == []
      ensures this.cipher == cipher && this.key == key && this.nonce == nonce && this.name == name
    {
      this.cipher, this.key, this.nonce, this.name := cipher, key, nonce, name;
      handle := MAGIC + nonce;
      encrypted := [];
      written, finished := [], false;
    }

    method Write(data: Bytes) returns (count: nat)
      requires Valid() && !finished
      modifies this
      ensures Valid() && !finished && written == old(written) + data && count == |data|
    {
      var more := Streamed(cipher, key, nonce, |encrypted|, data);
      StreamedInPieces(cipher, key, nonce, 0, written, data);
      handle, encrypted, written := handle + more, encrypted + more, written + data;
      count := |data|;
    }

    method Finish()
      requires Valid() && !finished
      modifies this
      ensures Valid() && finished && written == old(written)
    {
      handle := handle + cipher.tag(key, nonce, Aad(name), encrypted);
      finished := true;
    }
  }

  datatype Outcome = Accepted | Truncated | UnknownFormat | NotAuthentic

  /** The encrypted part, block by block. */
  method Opened(c: Cipher, key: Bytes, nonce: Bytes, body: Bytes) returns (blocks: seq<Bytes>)
    ensures Concat(blocks) == Streamed(c, key, nonce, 0, body)
    ensures forall i :: 0 <= i < |blocks| ==> 0 < |blocks[i]| <= BLOCK
  {
    blocks := [];
    var at := 0;
    assert body[..0] == [];
    while at < |body|
      invariant 0 <= at <= |body|
      invariant Concat(blocks) == Streamed(c, key, nonce, 0, body[..at])
      invariant forall i :: 0 <= i < |blocks| ==> 0 < |blocks[i]| <= BLOCK
    {
      var take := if |body| - at < BLOCK then |body| - at else BLOCK;
      var block := body[at..at + take];
      var plain := Streamed(c, key, nonce, at, block);
      StreamedInPieces(c, key, nonce, 0, body[..at], block);
      assert body[..at] + block == body[..at + take];
      ConcatMore(blocks, plain);
      at, blocks := at + take, blocks + [plain];
    }
    assert body[..at] == body;
  }

  /** The plaintext blocks of a set, which end in an empty one once its tag is found right, and why it is refused in
      the end, if it is. */
  method Decrypted(c: Cipher, file: Bytes, key: Bytes, name: Bytes) returns (blocks: seq<Bytes>, outcome: Outcome)
    ensures outcome.Truncated? <==> |file| < |MAGIC| + NONCE + TAG
    ensures outcome.UnknownFormat? <==> |file| >= |MAGIC| + NONCE + TAG && file[..|MAGIC|] != MAGIC
    ensures outcome.Accepted? || outcome.NotAuthentic? ==>
              && |file| >= |MAGIC| + NONCE + TAG
              && var nonce, body := file[|MAGIC|..|MAGIC| + NONCE], file[|MAGIC| + NONCE..|file| - TAG];
                 && Concat(blocks) == Streamed(c, key, nonce, 0, body)
                 && (outcome.Accepted? <==> c.tag(key, nonce, MAGIC + name, body) == file[|file| - TAG..])
    ensures outcome.Accepted? <==> blocks != [] && blocks[|blocks| - 1] == []
  {
    var size := |file|;
    if size < |MAGIC| + NONCE + TAG { return [], Truncated; }
    if file[..|MAGIC|] != MAGIC { return [], UnknownFormat; }
    var nonce := file[|MAGIC|..|MAGIC| + NONCE];
    var body := file[|MAGIC| + NONCE..size - TAG];
    blocks := Opened(c, key, nonce, body);
    if c.tag(key, nonce, Aad(name), body) != file[size - TAG..] { return blocks, NotAuthentic; }
    ConcatMore(blocks, []);
    assert Concat(blocks) + [] == Concat(blocks);
    blocks := blocks + [[]];
    outcome := Accepted;
  }

  /** A set is read back under a name and key exactly when it is what sealing the text under them wrote: nothing
      changed, cut, renamed or sealed with another key is accepted, as far as tags tell them apart. */
  lemma AcceptedExactlyWhenSealed(c: Cipher, file: Bytes, key: Bytes, name: Bytes, text: Bytes)
    requires TagsFit(c)
    ensures (&& |file| >= |MAGIC| + NONCE + TAG && file[..|MAGIC|] == MAGIC
             && var nonce, body := file[|MAGIC|..|MAGIC| + NONCE], file[|MAGIC| + NONCE..|file| - TAG];
                text == Streamed(c, key, nonce, 0, body) && c.tag(key, nonce, MAGIC + name, body) == file[|file| - TAG..])
            <==> exists nonce: Bytes :: |nonce| == NONCE && file == Sealed(c, key, nonce, name, text)
  {
    if nonce: Bytes :| |nonce| == NONCE && file == Sealed(c, key, nonce, name, text) {
      var body := Streamed(c, key, nonce, 0, text);
      var tag := c.tag(key, nonce, Aad(name), body);
      StreamedTwice(c, key, nonce, 0, text);
      SealedParts(file, nonce, body, tag);
    }
    if |file| >= |MAGIC| + NONCE + TAG && file[..|MAGIC|] == MAGIC {
      var nonce, body := file[|MAGIC|..|MAGIC| + NONCE], file[|MAGIC| + NONCE..|file| - TAG];
      if text == Streamed(c, key, nonce, 0, body) && c.tag(key, nonce, Aad(name), body) == file[|file| - TAG..] {
        StreamedTwice(c, key, nonce, 0, body);
        assert file == MAGIC + nonce + body + file[|file| - TAG..];
        assert |nonce| == NONCE && file == Sealed(c, key, nonce, name, text);
      }
    }
  }

  lemma SealedParts(file: Bytes, nonce: Bytes, body: Bytes, tag: Bytes)
    requires file == MAGIC + nonce + body + tag && |nonce| == NONCE && |tag| == TAG
    ensures |file| >= |MAGIC| + NONCE + TAG && file[..|MAGIC|] == MAGIC && file[|MAGIC|..|MAGIC| + NONCE] == nonce
    ensures file[|MAGIC| + NONCE..|file| - TAG] == body && file[|file| - TAG..] == tag
  {
  }

  lemma Regroup(a: Bytes, b: Bytes, c: Bytes)
    ensures a + (b + c) == a + b + c
  {
  }

  /** A read-only file over blocks. */
  class Reader {
    var blocks: seq<Bytes>
    var buffer: Bytes
    var position: nat

    predicate Valid()
      reads this
    {
      position <= |buffer|
    }

    /** What is still to be read. */
    ghost function Rest(): Bytes
      reads this
      requires Valid()
    {
      buffer[position..] + Concat(blocks)
    }

    constructor (blocks: seq<Bytes>)
      ensures Valid() && Rest() == Concat(blocks)
    {
      this.blocks, buffer, position := blocks, [], 0;
    }

    /** `next(self.blocks)`, once the buffer is used up. */
    method Refill()
      requires Valid() && position >= |buffer| && blocks != []
      modifies this
      ensures Valid() && Rest() == old(Rest()) && position == 0 && blocks == old(blocks)[1..]
    {
      assert buffer[position..] == [];
      buffer, position, blocks := blocks[0], 0, blocks[1..];
      assert buffer[0..] == buffer;
    }

    method Take(count: nat) returns (data: Bytes)
      requires Valid() && count <= |buffer| - position
      modifies `position
      ensures Valid() && |data| == count && data + Rest() == old(Rest()) && position == old(position) + count
    {
      data := buffer[position..position + count];
      assert buffer[position..] == data + buffer[position + count..];
      position := position + count;
    }

    /** The next `size` bytes, fewer only at the end; all of them when `size` is negative. Empty blocks are no end. */
    method Read(size: int) returns (data: Bytes)
      requires Valid()
      modifies this
      ensures Valid()
      ensures var n := if size < 0 || size > |old(Rest())| then |old(Rest())| else size;
              data == old(Rest())[..n] && Rest() == old(Rest())[n..]
    {
      ghost var all := Rest();
      data := [];
      var left := size;
      while left != 0
        invariant Valid() && data + Rest() == all
        invariant size < 0 ==> left < 0
        invariant size >= 0 ==> left >= 0 && |data| + left == size
        decreases |blocks|, |buffer| - position
      {
        if position >= |buffer| {
          if blocks == [] {
            assert Rest() == [];
            break;
          }
          Refill();
          continue;
        }
        var available := |buffer| - position;
        var take := if left < 0 || left > available then available else left;
        var part := Take(take);
        Regroup(data, part, Rest());
        data := data + part;
        if left > 0 { left := left - take; }
      }
      assert all[..|data|] == data && all[|data|..] == Rest();
    }
  }

  lemma OneMorePiece(pieces: seq<Bytes>, data: Bytes, rest: Bytes)
    ensures Concat(pieces + [data]) + rest == Concat(pieces) + (data + rest)
  {
    ConcatMore(pieces, data);
    Regroup(Concat(pieces), data, rest);
  }

  /** Reads of any sizes give the concatenation piece by piece, and leave the rest. */
  method ReadAll(reader: Reader, sizes: seq<int>) returns (pieces: seq<Bytes>)
    requires reader.Valid()
    modifies reader
    ensures reader.Valid() && |pieces| == |sizes| && Concat(pieces) + reader.Rest() == old(reader.Rest())
    ensures forall i :: 0 <= i < |sizes| && sizes[i] >= 0 ==> |pieces[i]| <= sizes[i]
  {
    pieces := [];
    for i := 0 to |sizes|
      invariant reader.Valid() && |pieces| == i && Concat(pieces) + reader.Rest() == old(reader.Rest())
      invariant forall j :: 0 <= j < i && sizes[j] >= 0 ==> |pieces[j]| <= sizes[j]
    {
      ghost var before := reader.Rest();
      var data := reader.Read(sizes[i]);
      OneMorePiece(pieces, data, reader.Rest());
      assert before == data + reader.Rest();
      pieces := pieces + [data];
    }
  }

  /** A set written in pieces. */
  method Seal(c: Cipher, key: Bytes, nonce: Bytes, name: Bytes, writes: seq<Bytes>) returns (file: Bytes)
    ensures file == Sealed(c, key, nonce, name, Concat(writes))
  {
    var writer := new Encrypting(c, key, nonce, name);
    for i := 0 to |writes|
      invariant fresh(writer) && writer.Valid() && !writer.finished && writer.written == Concat(writes[..i])
      invariant writer.cipher == c && writer.key == key && writer.nonce == nonce && writer.name == name
    {
      var count := writer.Write(writes[i]);
      ConcatMore(writes[..i], writes[i]);
      assert writes[..i] + [writes[i]] == writes[..i + 1];
    }
    writer.Finish();
    assert writes[..|writes|] == writes;
    file := writer.handle;
  }

  /** Whatever pieces the plaintext is written in and whatever sizes it is read in, what is read is what was written. */
  method RoundTrip(c: Cipher, key: Bytes, nonce: Bytes, name: Bytes, writes: seq<Bytes>, sizes: seq<int>)
    returns (pieces: seq<Bytes>, rest: Bytes, outcome: Outcome)
    requires TagsFit(c) && |nonce| == NONCE
    ensures outcome.Accepted? && |pieces| == |sizes| && Concat(pieces) + rest == Concat(writes)
  {
    var file := Seal(c, key, nonce, name, writes);
    ghost var text := Concat(writes);
    SealedParts(file, nonce, Streamed(c, key, nonce, 0, text), c.tag(key, nonce, Aad(name), Streamed(c, key, nonce, 0, text)));
    StreamedTwice(c, key, nonce, 0, text);
    var blocks;
    blocks, outcome := Decrypted(c, file, key, name);
    var reader := new Reader(blocks);
    pieces := ReadAll(reader, sizes);
    rest := reader.Read(-1);
  }

  /** A set sealed under one name is read back under another, or with another key, exactly when the cipher gives both the
      same tag: the name is part of what the tag is of. */
  method OpenedElsewhere(c: Cipher, key: Bytes, nonce: Bytes, name: Bytes, writes: seq<Bytes>, other: Bytes, otherKey: Bytes)
    returns (outcome: Outcome)
    requires TagsFit(c) && |nonce| == NONCE
    ensures var body := Streamed(c, key, nonce, 0, Concat(writes));
            outcome == if c.tag(otherKey, nonce, MAGIC + other, body) == c.tag(key, nonce, MAGIC + name, body) then Accepted
                       else NotAuthentic
  {
    var file := Seal(c, key, nonce, name, writes);
    ghost var body := Streamed(c, key, nonce, 0, Concat(writes));
    SealedParts(file, nonce, body, c.tag(key, nonce, Aad(name), body));
    var blocks;
    blocks, outcome := Decrypted(c, file, otherKey, other);
  }

  /** Keep the newest `keep` sets on the target, and only once the set just uploaded is listed. */
  method PruneRemote(names: set<Stamp>, keep: int, newest: Stamp) returns (refused: bool, doomed: set<Stamp>)
    ensures refused <==> keep < 1 || newest !in names
    ensures doomed == if refused then {} else names - Newest(names, keep)
    ensures !refused && (forall n :: n in names ==> n <= newest) ==> newest !in doomed
  {
    doomed := {};
    refused := keep < 1 || newest !in names;
    if !refused {
      var kept := LastOf(names, keep);
      doomed := names - kept;
      if forall n :: n in names ==> n <= newest { assert Later(names, newest) == {}; }
    }
  }
}

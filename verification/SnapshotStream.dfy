/** Receiving an etcd snapshot (internal/adapters/talos/etcd_operations.go): the hasher that
    withholds the last bytes of a stream, and the file that appears only if they are the digest of
    the others. */
module SnapshotStream {
  import opened Sequences
  import opened Lines
  import opened Operations
  import Text

  /** sha256.Size. */
  const CHECKSUM_SIZE := 32

  type Digest = Bytes -> Bytes

  function TrailerSize(all: Bytes): nat { if |all| < CHECKSUM_SIZE then |all| else CHECKSUM_SIZE }

  class SnapshotHasher {
    /** What has been written to the hash; its sum is the digest of this. */
    var hashed: Bytes
    var trailer: Bytes
    ghost var written: Bytes

    /** The hash has seen everything but the last bytes, which are the trailer. */
    ghost predicate Valid()
      reads this
    {
      hashed + trailer == written && |trailer| == TrailerSize(written)
    }

    constructor ()
      ensures Valid() && written == []
    {
      hashed, trailer, written := [], [], [];
    }

    method Write(p: Bytes)
      requires Valid()
      modifies this
      ensures Valid() && written == old(written) + p
    {
      trailer := trailer + p;
      written := written + p;
      assert hashed + trailer == written;
      var excess := |trailer| - CHECKSUM_SIZE;
      if excess > 0 {
        hashed := hashed + trailer[..excess];
        trailer := trailer[excess..];
      }
    }

    /** The decision at the end of the stream: what was written is a payload followed by its digest. */
    method Matches(digest: Digest) returns (ok: bool)
      requires Valid()
      ensures ok <==> |written| >= 32 && digest(written[..|written| - 32]) == written[|written| - 32..]
    {
      if |trailer| != CHECKSUM_SIZE { return false; }
      assert written[..|written| - CHECKSUM_SIZE] == hashed && written[|written| - CHECKSUM_SIZE..] == trailer;
      ok := digest(hashed) == trailer;
    }
  }

  class FileSystem {
    var files: map<string, Bytes>
    /** How many operations have failed without a reason in the files. */
    ghost var faults: nat

    constructor (files: map<string, Bytes>)
      ensures this.files == files && faults == 0
    {
      this.files, faults := files, 0;
    }

    method MayFail() returns (failed: bool)
      modifies this`faults
      ensures faults == old(faults) + if failed then 1 else 0
    {
      failed := *;
      faults := faults + if failed then 1 else 0;
    }

    /** O_CREATE with O_EXCL. */
    method Create(path: string) returns (ok: bool)
      modifies this
      ensures ok ==> path !in old(files) && files == old(files)[path := []]
      ensures !ok ==> files == old(files) && (path in files || faults > old(faults))
      ensures faults >= old(faults)
    {
      if path in files { return false; }
      var failed := MayFail();
      if failed { return false; }
      files := files[path := []];
      ok := true;
    }

    method Append(path: string, data: Bytes) returns (ok: bool)
      requires path in files
      modifies this
      ensures path in old(files) &&
        exists more :: files == old(files)[path := old(files)[path] + more] && (ok ==> more == data)
      ensures faults >= old(faults) && (!ok ==> faults > old(faults))
    {
      var failed := MayFail();
      ok := !failed;
      var kept := |data|;
      if failed {
        kept := *;
        if kept < 0 || kept > |data| { kept := 0; }
      }
      assert data[..|data|] == data;
      files := files[path := files[path] + data[..kept]];
    }

    /** file.Sync and file.Close, which may fail. */
    method Flush() returns (ok: bool)
      modifies this`faults
      ensures faults >= old(faults) && (!ok ==> faults > old(faults))
    {
      var failed := MayFail();
      if failed { return false; }
      failed := MayFail();
      ok := !failed;
    }

    method Link(from: string, to: string) returns (ok: bool)
      requires from in files
      modifies this
      ensures ok ==> to !in old(files) && files == old(files)[to := old(files)[from]]
      ensures !ok ==> files == old(files) && (to in files || faults > old(faults))
      ensures faults >= old(faults)
    {
      if to in files { return false; }
      var failed := MayFail();
      if failed { return false; }
      files := files[to := files[from]];
      ok := true;
    }

    method Remove(path: string)
      modifies this`files
      ensures files == old(files) - {path}
    {
      files := files - {path};
    }

    /** Another process may create the file at any time. */
    method Interfere(path: string) returns (ghost foreign: Option<Bytes>)
      modifies this`files
      ensures foreign.None? ==> files == old(files)
      ensures foreign.Some? ==> path !in old(files) && files == old(files)[path := foreign.value]
    {
      foreign := None;
      if * {
        if path !in files {
          var data: Bytes := *;
          files := files[path := data];
          foreign := Some(data);
        }
      }
    }
  }

  function WithFile(files: map<string, Bytes>, path: string, data: Option<Bytes>): map<string, Bytes> {
    if data.Some? then files[path := data.value] else files
  }

  lemma DropStaging(files: map<string, Bytes>, part: string, staged: Bytes, path: string, data: Option<Bytes>)
    requires part !in files && path != part
    ensures WithFile(files[part := staged], path, data) - {part} == WithFile(files, path, data)
  {
  }

  /** Copying the stream to the staging file and the hasher; it may break off at any chunk. */
  method Copy(fs: FileSystem, part: string, chunks: seq<Bytes>, breaksAt: nat, hasher: SnapshotHasher)
    returns (ok: bool, size: nat)
    requires hasher.Valid() && hasher.written == [] && part in fs.files && fs.files[part] == []
    modifies fs, hasher
    ensures hasher.Valid() && part in fs.files && fs.files == old(fs.files)[part := fs.files[part]]
    ensures ok ==> fs.files[part] == hasher.written == Flatten(chunks) && size == |hasher.written|
    ensures fs.faults >= old(fs.faults) && (!ok ==> fs.faults > old(fs.faults) || breaksAt < |chunks|)
  {
    ok, size := false, 0;
    for i := 0 to |chunks|
      invariant hasher.Valid() && hasher.written == Flatten(chunks[..i]) && size == |hasher.written|
      invariant fs.files == old(fs.files)[part := hasher.written] && fs.faults >= old(fs.faults)
    {
      assert chunks[..i + 1][..i] == chunks[..i];
      var appended := fs.Append(part, chunks[i]);
      if !appended || i == breaksAt { return; }
      hasher.Write(chunks[i]);
      size := size + |chunks[i]|;
    }
    assert chunks[..|chunks|] == chunks;
    ok := true;
  }

  // ---- The receipt ------------------------------------------------------------------------------

  /** hex.EncodeToString. */
  function Hex(bytes: Bytes): (s: string)
    ensures |s| == 2 * |bytes| && Text.HexText(s)
  {
    if bytes == [] then ""
    else
      var b := bytes[0] as nat;
      [HexDigit(b / 16), HexDigit(b % 16)] + Hex(bytes[1..])
  }

  function HexDigit(n: nat): (c: char)
    requires n < 16
    ensures '0' <= c <= '9' || 'a' <= c <= 'f'
  {
    "0123456789abcdef"[n]
  }

  function DigitValue(c: char): int {
    if '0' <= c <= '9' then c as int - '0' as int else c as int - 'a' as int + 10
  }

  /** Two digits give their byte again. */
  lemma {:induction false} HexMeans(bytes: Bytes, i: nat)
    requires i < |bytes|
    ensures 16 * DigitValue(Hex(bytes)[2 * i]) + DigitValue(Hex(bytes)[2 * i + 1]) == bytes[i] as int
  {
    if i == 0 {
      ByteRead(bytes[0] as nat);
    } else {
      HexMeans(bytes[1..], i - 1);
      assert bytes[1..][i - 1] == bytes[i];
      assert Hex(bytes)[2 * i] == Hex(bytes[1..])[2 * (i - 1)];
      assert Hex(bytes)[2 * i + 1] == Hex(bytes[1..])[2 * (i - 1) + 1];
    }
  }

  lemma ByteRead(n: nat)
    requires n < 256
    ensures 16 * DigitValue(HexDigit(n / 16)) + DigitValue(HexDigit(n % 16)) == n
  {
    DigitsRead();
  }

  lemma DigitsRead()
    ensures forall n: nat :: n < 16 ==> DigitValue(HexDigit(n)) == n
  {
    forall n: nat | n < 16 ensures DigitValue(HexDigit(n)) == n {
      assert HexDigit(n) == if n < 10 then ('0' as int + n) as char else ('a' as int + n - 10) as char;
    }
  }

  /** Snapshot. Either the accepted bytes are at the path, where nothing was, or nothing is left
      behind; the staging file is gone in both cases, what another process put at the path in
      the meantime stays, and the receipt of an accepted snapshot is one that callers trust. */
  method Snapshot(fs: FileSystem, node: string, path: string, chunks: seq<Bytes>, opens: bool, breaksAt: nat,
      digest: Digest)
    returns (receipt: Option<Receipt>, ghost foreign: Option<Bytes>)
    modifies fs
    ensures receipt.Some? ==>
      var all := Flatten(chunks);
      path !in old(fs.files) && fs.files == old(fs.files)[path := all] &&
      |all| >= 32 && digest(all[..|all| - 32]) == all[|all| - 32..] &&
      receipt.value == Receipt(node, path, |all|, Hex(all[|all| - 32..])) &&
      ValidReceipt(receipt.value, node, path)
    ensures receipt.None? ==>
      path in old(fs.files) || path + ".part" in old(fs.files) || fs.faults > old(fs.faults) || !opens ||
      breaksAt < |chunks| ||
      foreign.Some? ||
      var all := Flatten(chunks);
      |all| < 32 || digest(all[..|all| - 32]) != all[|all| - 32..]
    ensures receipt.None? ==>
      fs.files == WithFile(old(fs.files), path, foreign) && (foreign.Some? ==> path !in old(fs.files))
  {
    receipt, foreign := None, None;
    if path in fs.files { return; }
    var part := path + ".part";
    assert |part| == |path| + 5;
    var created := fs.Create(part);
    if !created { return; }
    ghost var before := old(fs.files);
    if !opens {
      fs.Remove(part);
      DropStaging(before, part, [], path, None);
      return;
    }
    var hasher := new SnapshotHasher();
    var copied, size := Copy(fs, part, chunks, breaksAt, hasher);
    ghost var staged := fs.files[part];
    assert fs.files == before[part := staged];
    var accepted := hasher.Matches(digest);
    if !copied || !accepted {
      fs.Remove(part);
      DropStaging(before, part, staged, path, None);
      return;
    }
    var flushed := fs.Flush();
    if !flushed {
      fs.Remove(part);
      DropStaging(before, part, staged, path, None);
      return;
    }
    foreign := fs.Interfere(path);
    var linked := fs.Link(part, path);
    fs.Remove(part);
    if linked {
      receipt := Some(Receipt(node, path, size, Hex(hasher.trailer)));
      DropStaging(before, part, staged, path, Some(staged));
    } else {
      DropStaging(before, part, staged, path, foreign);
    }
  }
}

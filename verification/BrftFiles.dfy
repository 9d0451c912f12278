/** Files of a transfer (brft/file.go). A client file under way is a signature, the checksum of the
    complete file and the content received so far; the server reads plain files. */
module BrftFiles {
  import opened Prelude

  const FILE_SIGNATURE: bytes := [42, 52, 46, 54, 31]
  const HEADER_SIZE: nat := 37

  /** A checksum function; its values have the length of a checksum. */
  type Hash = bytes -> bytes

  ghost predicate ValidHash(hash: Hash)
  {
    forall x :: |hash(x)| == CHECKSUM_SIZE
  }

  /** The bytes of a client file that has received `content` so far. */
  function Pending(checksum: bytes, content: bytes): bytes
  {
    FILE_SIGNATURE + checksum + content
  }

  /** The checksum recorded in a client file, if the file is one. */
  function RecordedChecksum(file: bytes): Option<bytes>
  {
    if |file| >= HEADER_SIZE && file[..|FILE_SIGNATURE|] == FILE_SIGNATURE
    then Some(file[|FILE_SIGNATURE|..HEADER_SIZE]) else None
  }

  lemma PendingRecords(checksum: bytes, content: bytes)
    requires |checksum| == CHECKSUM_SIZE
    ensures RecordedChecksum(Pending(checksum, content)) == Some(checksum)
    ensures Pending(checksum, content)[HEADER_SIZE..] == content
    ensures |Pending(checksum, content)| == HEADER_SIZE + |content|
  {
    var f := Pending(checksum, content);
    assert f[..5] == FILE_SIGNATURE && f[5..HEADER_SIZE] == checksum;
  }

  /** A file records a checksum exactly when it begins with the five bytes of the signature and has 32 more,
      and these are the checksum. */
  lemma SignatureExactly(file: bytes)
    ensures RecordedChecksum(file).Some? <==> |file| >= 37 && file[..5] == [42, 52, 46, 54, 31]
    ensures RecordedChecksum(file).Some? ==> RecordedChecksum(file).value == file[5..37]
  {
  }

  /** A file with a recorded checksum is signature, checksum and content, and nothing else is. */
  lemma RecordedIsPending(file: bytes)
    ensures RecordedChecksum(file).Some? <==>
              exists sum: bytes ::
                |sum| == CHECKSUM_SIZE && |file| >= HEADER_SIZE && file == Pending(sum, file[HEADER_SIZE..])
  {
    if RecordedChecksum(file).Some? {
      var sum := RecordedChecksum(file).value;
      assert file == Pending(sum, file[HEADER_SIZE..]);
    } else if exists sum: bytes ::
                |sum| == CHECKSUM_SIZE && |file| >= HEADER_SIZE && file == Pending(sum, file[HEADER_SIZE..]) {
      var sum: bytes :| |sum| == CHECKSUM_SIZE && |file| >= HEADER_SIZE && file == Pending(sum, file[HEADER_SIZE..]);
      PendingRecords(sum, file[HEADER_SIZE..]);
    }
  }

  datatype FileError = NotExist | InvalidName | NotABrftFile | InvalidChecksum | NoClientFile | InvalidOffset | EndOfFile

  /** An ASCII letter, a digit or an underscore. */
  predicate WordByte(b: byte)
  {
    48 <= b <= 57 || 65 <= b <= 90 || b == 95 || 97 <= b <= 122
  }

  predicate WordBytes(b: bytes)
  {
    b != [] && forall i | 0 <= i < |b| :: WordByte(b[i])
  }

  /** Word bytes and dashes, at least one of them. */
  predicate StemBytes(b: bytes)
  {
    b != [] && forall i | 0 <= i < |b| :: WordByte(b[i]) || b[i] == 45
  }

  /** The position of the first dot, or the length. */
  function FirstDot(name: bytes): (d: nat)
    ensures d <= |name|
    ensures d < |name| ==> name[d] == 46
    ensures forall i | 0 <= i < d :: name[i] != 46
  {
    if name == [] || name[0] == 46 then 0 else 1 + FirstDot(name[1..])
  }

  /** The names that the server opens: a stem and at most one extension. */
  predicate ValidName(name: bytes)
  {
    var d := FirstDot(name);
    StemBytes(name[..d]) && (d == |name| || WordBytes(name[d + 1..]))
  }

  lemma WordCharacters(b: byte)
    ensures WordByte(b) <==>
              var c := b as char; '0' <= c <= '9' || 'A' <= c <= 'Z' || c == '_' || 'a' <= c <= 'z'
  {
  }

  /** The pattern of the names: a stem, or a stem, a dot and word bytes. In particular no name leads
      out of the directory. */
  lemma ValidNames(name: bytes)
    ensures ValidName(name) <==>
              (StemBytes(name) ||
               exists stem: bytes, ext: bytes :: StemBytes(stem) && WordBytes(ext) && name == stem + [46] + ext)
    ensures ValidName(name) ==> 47 !in name && name != [46, 46]
  {
    var d := FirstDot(name);
    if ValidName(name) {
      assert name[..d] + name[d..] == name;
      if d < |name| {
        assert name == name[..d] + [46] + name[d + 1..];
      }
    }
    if StemBytes(name) {
      assert forall i | 0 <= i < |name| :: name[i] != 46;
      assert name[..|name|] == name;
    }
    if stem: bytes, ext: bytes :| StemBytes(stem) && WordBytes(ext) && name == stem + [46] + ext {
      assert name[|stem|] == 46;
      assert forall i | 0 <= i < |stem| :: name[i] == stem[i] && stem[i] != 46;
      assert d == |stem| && name[..d] == stem && name[d + 1..] == ext;
    }
  }

  /** The directory entry of the one file name of a transfer. */
  class Entry {
    var file: Option<bytes>

    constructor (file: Option<bytes>)
      ensures this.file == file
    {
      this.file := file;
    }
  }

  /** An open file: a cursor over the entry. */
  class File {
    const entry: Entry
    const isClientFile: bool
    const checksum: bytes
    // the size found when the file was opened
    const stat: nat
    var pos: nat

    ghost predicate Valid()
      reads this, entry
    {
      && entry.file.Some? && pos <= |entry.file.value|
      && (isClientFile ==> RecordedChecksum(entry.file.value) == Some(checksum))
      && (!isClientFile ==> stat == |entry.file.value|)
    }

    constructor (entry: Entry, isClientFile: bool, checksum: bytes, stat: nat, pos: nat)
      ensures this.entry == entry && this.isClientFile == isClientFile
      ensures this.checksum == checksum && this.stat == stat && this.pos == pos
    {
      this.entry, this.isClientFile, this.checksum, this.stat, this.pos := entry, isClientFile, checksum, stat, pos;
    }

    /** Creates a client file, or reopens the one that exists at its end. */
    static method NewFile(entry: Entry, checksum: Option<bytes>) returns (r: Result<File, FileError>)
      modifies entry
      ensures r.Ok? ==> fresh(r.value) && r.value.Valid() && r.value.entry == entry && r.value.isClientFile
      ensures r.Ok? ==> r.value.pos == |entry.file.value|
      ensures old(entry.file).Some? ==> entry.file == old(entry.file)
      ensures old(entry.file).Some? ==> (r.Ok? <==> RecordedChecksum(old(entry.file).value).Some?)
      ensures old(entry.file).Some? && r.Err? ==> r.error == InvalidChecksum
      ensures old(entry.file).None? && checksum.None? ==> r == Err(NotExist) && entry.file == None
      ensures old(entry.file).None? && checksum.Some? ==> (r.Ok? <==> |checksum.value| == CHECKSUM_SIZE)
      ensures old(entry.file).None? && checksum.Some? ==>
                entry.file == Some(if r.Ok? then Pending(checksum.value, []) else [])
    {
      if entry.file.None? {
        if checksum.None? {
          return Err(NotExist);
        }
        entry.file := Some([]);
        var f := new File(entry, true, checksum.value, 0, 0);
        var written := f.WriteChecksum(checksum.value);
        if !written {
          return Err(InvalidChecksum);
        }
        PendingRecords(checksum.value, []);
        return Ok(f);
      }
      var f := new File(entry, true, [], 0, 0);
      var found := f.ReadChecksum();
      if found.Err? {
        return Err(InvalidChecksum);
      }
      f := new File(entry, true, found.value, 0, |entry.file.value|);
      return Ok(f);
    }

    /** Opens a plain file for reading, if its name is one that the server hands out. */
    static method OpenFile(entry: Entry, name: bytes, hash: Hash) returns (r: Result<File, FileError>)
      ensures r.Ok? <==> ValidName(name) && entry.file.Some?
      ensures r.Err? ==> r.error == if ValidName(name) then NotExist else InvalidName
      ensures r.Ok? ==> fresh(r.value) && r.value.Valid() && r.value.entry == entry && !r.value.isClientFile
      ensures r.Ok? ==> r.value.pos == 0 && r.value.checksum == hash(entry.file.value)
    {
      if !ValidName(name) {
        return Err(InvalidName);
      }
      if entry.file.None? {
        return Err(NotExist);
      }
      var f := new File(entry, false, hash(entry.file.value), |entry.file.value|, 0);
      return Ok(f);
    }

    /** Up to `n` bytes from the cursor; an error at the end of the file. */
    method Read(n: nat) returns (r: Result<bytes, FileError>)
      requires entry.file.Some? && pos <= |entry.file.value|
      modifies this
      ensures old(pos) <= pos <= |entry.file.value|
      ensures r.Err? <==> n > 0 && old(pos) == |entry.file.value|
      ensures r.Err? ==> r.error == EndOfFile && pos == old(pos)
      ensures r.Ok? ==> r.value == entry.file.value[old(pos)..pos]
      ensures r.Ok? ==> pos == if old(pos) + n <= |entry.file.value| then old(pos) + n else |entry.file.value|
    {
      var left := |entry.file.value| - pos;
      if n > 0 && left == 0 {
        return Err(EndOfFile);
      }
      var count := if n <= left then n else left;
      r := Ok(entry.file.value[pos..pos + count]);
      pos := pos + count;
    }

    /** Overwrites and extends from the cursor. */
    method Write(b: bytes)
      requires entry.file.Some? && pos <= |entry.file.value|
      modifies this, entry
      ensures entry.file.Some? && pos == old(pos) + |b| <= |entry.file.value|
      ensures entry.file.value[..old(pos)] == old(entry.file).value[..old(pos)]
      ensures entry.file.value[old(pos)..pos] == b
      ensures entry.file.value[pos..]
           == if pos <= |old(entry.file).value| then old(entry.file).value[pos..] else []
    {
      var f := entry.file.value;
      var after := if pos + |b| <= |f| then f[pos + |b|..] else [];
      entry.file := Some(f[..pos] + b + after);
      pos := pos + |b|;
    }

    method WriteChecksum(sum: bytes) returns (ok: bool)
      requires entry.file == Some([]) && pos == 0
      modifies this, entry
      ensures ok <==> |sum| == CHECKSUM_SIZE
      ensures !ok ==> entry.file == Some([])
      ensures ok ==> entry.file == Some(Pending(sum, [])) && pos == HEADER_SIZE
    {
      if |sum| != CHECKSUM_SIZE {
        return false;
      }
      Write(FILE_SIGNATURE);
      assert entry.file.value[0..5] == entry.file.value;
      Write(sum);
      assert entry.file.value == entry.file.value[..5] + entry.file.value[5..];
      assert entry.file.value == Pending(sum, []);
      return true;
    }

    /** Reads the signature and the checksum at the start of the file. */
    method ReadChecksum() returns (r: Result<bytes, FileError>)
      requires entry.file.Some? && pos == 0
      modifies this
      ensures pos <= |entry.file.value|
      ensures r.Ok? <==> RecordedChecksum(entry.file.value).Some?
      ensures r.Ok? ==> r.value == RecordedChecksum(entry.file.value).value && pos == HEADER_SIZE
    {
      var sig := Read(|FILE_SIGNATURE|);
      if sig.Err? {
        return Err(sig.error);
      } else if |sig.value| != |FILE_SIGNATURE| || sig.value != FILE_SIGNATURE {
        return Err(NotABrftFile);
      }
      var sum := Read(CHECKSUM_SIZE);
      if sum.Err? {
        return Err(sum.error);
      } else if |sum.value| != CHECKSUM_SIZE {
        return Err(NotABrftFile);
      }
      return Ok(sum.value);
    }

    /** The size of the content: a client file's header does not count. */
    method Size() returns (n: nat)
      requires Valid()
      ensures n == if isClientFile then |entry.file.value| - HEADER_SIZE else |entry.file.value|
    {
      n := if isClientFile then |entry.file.value| - HEADER_SIZE else stat;
    }

    /** Moves the cursor to `offset`, also in a client file, whose content starts HEADER_SIZE later. */
    method SeekOffset(offset: nat) returns (r: Result<bool, FileError>)
      requires Valid()
      modifies this
      ensures Valid()
      ensures r.Err? <==> offset > |entry.file.value| - (if isClientFile then HEADER_SIZE else 0)
      ensures pos == if r.Ok? then offset else old(pos)
    {
      var size := Size();
      if offset > size {
        return Err(InvalidOffset);
      }
      pos := offset;
      return Ok(true);
    }

    /** Whether the content has the recorded checksum; the cursor is put back. */
    method CheckChecksum(hash: Hash) returns (r: Result<bool, FileError>)
      requires Valid()
      modifies this
      ensures Valid() && pos == old(pos)
      ensures r == if isClientFile then Ok(hash(entry.file.value[HEADER_SIZE..]) == checksum) else Err(NoClientFile)
    {
      if !isClientFile {
        return Err(NoClientFile);
      }
      var prevOffset := pos;
      pos := HEADER_SIZE;
      var content := Read(|entry.file.value|);
      var all := if content.Ok? then content.value else [];
      assert all == entry.file.value[HEADER_SIZE..];
      pos := prevOffset;
      return Ok(hash(all) == checksum);
    }

    /** Replaces the file by its content. */
    method StripChecksum() returns (r: Result<bool, FileError>)
      requires Valid()
      modifies this, entry
      ensures r.Ok? <==> isClientFile
      ensures entry.file == if r.Ok? then Some(old(entry.file).value[HEADER_SIZE..]) else old(entry.file)
    {
      if !isClientFile {
        return Err(NoClientFile);
      }
      pos := 0;
      var found := ReadChecksum();
      var rest := Read(|entry.file.value|);
      var content := if rest.Ok? then rest.value else [];
      assert content == entry.file.value[HEADER_SIZE..];
      entry.file := Some(content);
      return Ok(true);
    }

    method Remove()
      modifies entry
      ensures entry.file == None
    {
      entry.file := None;
    }
  }
}

/** The SD-card file behind the TFTP server: one open file, a position, and the
    four callbacks handed to the server. */
module TftpFile {
  import opened Octets

  /** content is what the card holds, pos the FatFs read/write pointer, and base
      what the card held when the file was opened. */
  datatype FileData = FileData(content: seq<Octet>, pos: nat, base: seq<Octet>)

  type File = f: FileData | f.pos <= |f.content| witness FileData([], 0, [])

  /** "octet" and its terminating NUL, the only accepted mode. */
  const OCTET: seq<Octet> := [111, 99, 116, 101, 116, 0]

  /** FA_OPEN_ALWAYS|FA_WRITE and FA_OPEN_EXISTING|FA_READ both keep what is there. */
  function Opened(found: seq<Octet>): (f: File)
  {
    FileData(found, 0, found)
  }

  /** f_read: short only at the end of the file. */
  function ReadAt(f: File, n: nat): seq<Octet>
  {
    Slice(f.content, f.pos, Min(n, |f.content| - f.pos))
  }

  function AfterRead(f: File, n: nat): (r: File)
  {
    f.(pos := Min(f.pos + n, |f.content|))
  }

  /** f_write: overwrites in place and extends past the end. */
  function AfterWrite(f: File, bytes: seq<Octet>): (r: File)
  {
    var end := f.pos + |bytes|;
    f.(content := seq(Max(end, |f.content|), i requires 0 <= i < Max(end, |f.content|) =>
                        if f.pos <= i < end then bytes[i - f.pos] else f.content[i]),
       pos := end)
  }

  /** Past the bytes stored so far the card holds what it held before. */
  ghost predicate Overlaid(f: File) {
    && |f.content| == Max(f.pos, |f.base|)
    && forall i | f.pos <= i < |f.content| :: f.content[i] == f.base[i]
  }

  lemma AfterWriteAppends(f: File, bytes: seq<Octet>)
    requires Overlaid(f)
    ensures Overlaid(AfterWrite(f, bytes))
    ensures AfterWrite(f, bytes).content[..f.pos + |bytes|] == f.content[..f.pos] + bytes
    ensures AfterWrite(f, bytes).base == f.base
  {}

  lemma AfterWriteTwice(f: File, a: seq<Octet>, b: seq<Octet>)
    ensures AfterWrite(AfterWrite(f, a), b) == AfterWrite(f, a + b)
  {
    assert AfterWrite(AfterWrite(f, a), b).content == AfterWrite(f, a + b).content;
  }

  lemma AfterWriteNothing(f: File)
    ensures AfterWrite(f, []) == f
  {
    assert AfterWrite(f, []).content == f.content;
  }

  /** The chain walked buffer by buffer; room is how many bytes the card still
      takes before f_write fails or comes up short. */
  function WriteChain(f: File, p: seq<seq<Octet>>, room: nat): (File, bool)
    decreases |p|
  {
    if p == [] then (f, true)
    else if |p[0]| <= room then WriteChain(AfterWrite(f, p[0]), p[1..], room - |p[0]|)
    else (AfterWrite(f, p[0][..room]), false)
  }

  /** The walk stores the first room bytes of the whole payload and succeeds iff all fit. */
  lemma {:induction false} WriteChainStores(f: File, p: seq<seq<Octet>>, room: nat)
    ensures var all := Flatten(p);
            WriteChain(f, p, room) == (AfterWrite(f, all[..Min(room, |all|)]), |all| <= room)
    decreases |p|
  {
    var all := Flatten(p);
    if p == [] {
      AfterWriteNothing(f);
    } else if |p[0]| <= room {
      var rest := Flatten(p[1..]);
      WriteChainStores(AfterWrite(f, p[0]), p[1..], room - |p[0]|);
      AfterWriteTwice(f, p[0], rest[..Min(room - |p[0]|, |rest|)]);
      assert all[..Min(room, |all|)] == p[0] + rest[..Min(room - |p[0]|, |rest|)];
    } else {
      assert all[..room] == p[0][..room];
    }
  }

  lemma {:induction false} WriteChainNothing(f: File, p: seq<seq<Octet>>, room: nat)
    requires Flatten(p) == []
    ensures WriteChain(f, p, room) == (f, true)
    decreases |p|
  {
    if p != [] {
      assert p[0] == [] && Flatten(p[1..]) == [];
      AfterWriteNothing(f);
      WriteChainNothing(f, p[1..], room);
    }
  }

  /** The open handle as an object whose callbacks advance it in place. */
  class SdFile {
    var file: File

    constructor (found: seq<Octet>)
      ensures file == Opened(found)
    {
      file := Opened(found);
    }

    /** tftp_sdcard_open; found is what f_open finds, None if it fails. */
    method Open(mode: seq<Octet>, found: Option<seq<Octet>>) returns (ok: bool)
      modifies this
      ensures ok <==> mode == OCTET && found.Some?
      ensures file == if ok then Opened(found.value) else old(file)
    {
      if mode != OCTET {
        return false;
      }
      if found.None? {
        return false;
      }
      file := Opened(found.value);
      ok := true;
    }

    /** tftp_sdcard_read; works says whether f_read succeeds. */
    method Read(n: nat, works: bool) returns (ret: int, bytes: seq<Octet>)
      modifies this
      ensures works ==> ret == |bytes| && bytes == ReadAt(old(file), n) && file == AfterRead(old(file), n)
      ensures !works ==> ret == -1 && file == old(file)
    {
      if !works {
        return -1, [];
      }
      bytes := Slice(file.content, file.pos, Min(n, |file.content| - file.pos));
      file := file.(pos := file.pos + |bytes|);
      ret := |bytes|;
    }

    /** f_write of one buffer. */
    method FWrite(bytes: seq<Octet>, room: nat) returns (n: nat)
      modifies this
      ensures n == Min(room, |bytes|)
      ensures file == AfterWrite(old(file), bytes[..n])
    {
      n := Min(room, |bytes|);
      file := AfterWrite(file, bytes[..n]);
    }

    /** Walks the pbuf chain. */
    method Write(chain: seq<seq<Octet>>, room: nat) returns (ok: bool)
      modifies this
      ensures ok <==> |Flatten(chain)| <= room
      ensures file == AfterWrite(old(file), Flatten(chain)[..Min(room, |Flatten(chain)|)])
    {
      WriteChainStores(file, chain, room);
      var p, left := chain, room;
      while p != [] && Flatten(p) != []
        invariant 0 <= left
        invariant WriteChain(file, p, left) == WriteChain(old(file), chain, room)
        decreases |p|
      {
        if |p[0]| != 0 {
          var n := FWrite(p[0], left);
          if n != |p[0]| {
            return false;
          }
          assert p[0][..n] == p[0];
          left := left - n;
        } else {
          AfterWriteNothing(file);
        }
        p := p[1..];
      }
      WriteChainNothing(file, p, left);
      ok := true;
    }
  }
}

/** Parsing of read and write requests (section 5 of RFC 1350) with the 16-bit
    offset arithmetic of the server. */
module TftpRequest {
  import opened Octets

  const NOT_FOUND: Word16 := 0xFFFF
  const FILENAME_SIZE := 21
  const MODE_SIZE := 8

  /** pbuf_memfind for a single NUL: the first match at or after start. */
  function MemFind(p: seq<Octet>, start: nat): (r: Word16)
    requires |p| <= 0xFFFF
    ensures r == NOT_FOUND || start <= r < |p|
    ensures r != NOT_FOUND ==> p[r] == 0
    ensures forall i | start <= i < |p| && (r == NOT_FOUND || i < r) :: p[i] != 0
    decreases |p| - start
  {
    if start >= |p| then NOT_FOUND
    else if p[start] == 0 then start
    else MemFind(p, start + 1)
  }

  /** What the two local buffers hold after parsing; both include their NUL. */
  datatype Parsed = BadName | BadMode | Request(filename: seq<Octet>, mode: seq<Octet>)

  function Parse(p: seq<Octet>): Parsed
    requires |p| <= 0xFFFF
  {
    var nameEnd := MemFind(p, 2);
    if Sub16(nameEnd, 1) > FILENAME_SIZE then BadName
    else
      var filename := p[2..2 + Sub16(nameEnd, 1)];
      var modeEnd := MemFind(p, nameEnd + 1);
      if Sub16(modeEnd, nameEnd) > MODE_SIZE then BadMode
      else
        Request(filename, p[nameEnd + 1..nameEnd + 1 + Sub16(modeEnd, nameEnd)])
  }

  ghost predicate NulFree(s: seq<Octet>) {
    forall i | 0 <= i < |s| :: s[i] != 0
  }

  /** s is one NUL-terminated string and nothing more. */
  ghost predicate CString(s: seq<Octet>) {
    |s| >= 1 && s[|s| - 1] == 0 && NulFree(s[..|s| - 1])
  }

  /** RFC 1350 request body: opcode, filename, NUL, mode, NUL, anything. */
  ghost predicate IsRequest(p: seq<Octet>, name: seq<Octet>, mode: seq<Octet>) {
    && NulFree(name) && NulFree(mode)
    && |p| >= 2 + |name| + 1 + |mode| + 1
    && p[2..2 + |name|] == name
    && p[2 + |name|] == 0
    && p[2 + |name| + 1..2 + |name| + 1 + |mode|] == mode
    && p[2 + |name| + 1 + |mode|] == 0
  }

  /** The first NUL at or after start is where MemFind says it is. */
  lemma MemFindUnique(p: seq<Octet>, start: nat, at: nat)
    requires |p| <= 0xFFFF && start <= at < |p| && p[at] == 0
    requires forall i | start <= i < at :: p[i] != 0
    ensures MemFind(p, start) == at
  {
    var r := MemFind(p, start);
    assert r != NOT_FOUND && p[r] == 0;
  }

  /** Completeness: every request whose strings fit is parsed to exactly those strings. */
  lemma ParseEncoded(p: seq<Octet>, name: seq<Octet>, mode: seq<Octet>)
    requires |p| <= 0xFFFF && IsRequest(p, name, mode)
    requires |name| <= 20 && |mode| <= 7
    ensures Parse(p) == Request(name + [0], mode + [0])
  {
    var e := 2 + |name|;
    forall i | 2 <= i < e ensures p[i] != 0 {
      assert p[i] == p[2..e][i - 2] == name[i - 2];
    }
    MemFindUnique(p, 2, e);
    var m := e + 1 + |mode|;
    forall i | e + 1 <= i < m ensures p[i] != 0 {
      assert p[i] == p[e + 1..m][i - e - 1] == mode[i - e - 1];
    }
    MemFindUnique(p, e + 1, m);
    assert p[2..e + 1] == name + [0];
    assert p[e + 1..m + 1] == mode + [0];
  }

  /** Soundness for every packet: what is copied is two terminated strings that
      fit their buffers, and they are the strings of the packet. */
  lemma ParseSound(p: seq<Octet>)
    requires |p| <= 0xFFFF
    ensures match Parse(p)
            case Request(f, m) =>
              && CString(f) && CString(m)
              && |f| <= FILENAME_SIZE && |m| <= MODE_SIZE
              && IsRequest(p, f[..|f| - 1], m[..|m| - 1])
            case _ => true
  {
    if Parse(p).Request? {
      var e := MemFind(p, 2);
      assert e != NOT_FOUND;
      var m := MemFind(p, e + 1);
      assert m != NOT_FOUND;
      var Request(f, md) := Parse(p);
      assert f == p[2..e + 1] && md == p[e + 1..m + 1];
      assert f[..|f| - 1] == p[2..e];
      assert md[..|md| - 1] == p[e + 1..m];
    }
  }

  /** A packet is rejected exactly when no pair of fitting strings can be read from it. */
  lemma ParseRejects(p: seq<Octet>)
    requires |p| <= 0xFFFF
    ensures Parse(p).Request? <==>
            exists name, mode :: IsRequest(p, name, mode) && |name| <= 20 && |mode| <= 7
  {
    ParseSound(p);
    if Parse(p).Request? {
      var Request(f, m) := Parse(p);
      assert IsRequest(p, f[..|f| - 1], m[..|m| - 1]) && |f[..|f| - 1]| <= 20 && |m[..|m| - 1]| <= 7;
    }
    forall name, mode | IsRequest(p, name, mode) && |name| <= 20 && |mode| <= 7
      ensures Parse(p).Request?
    {
      ParseEncoded(p, name, mode);
    }
  }

  /** The bytes of a request as a client builds them. */
  function Encode(write: bool, name: seq<Octet>, mode: seq<Octet>): seq<Octet> {
    Be16(if write then 2 else 1) + name + [0] + mode + [0]
  }

  lemma EncodeIsRequest(write: bool, name: seq<Octet>, mode: seq<Octet>)
    requires NulFree(name) && NulFree(mode)
    ensures IsRequest(Encode(write, name, mode), name, mode)
  {}
}

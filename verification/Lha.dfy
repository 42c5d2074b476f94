/** The LHA half of `structural.py`, against the archive writer of its tests. */
module Lha {
  import opened Bytes
  import opened Crc16
  import opened Writing

  const LH0: seq<byte> := [0x2D, 0x6C, 0x68, 0x30, 0x2D]

  datatype Finding = ArchiveTruncated | HeaderMalformed | MethodUnsupported | HeaderChecksumMismatch | MemberCrcMismatch

  datatype Structure = Valid | Damaged | Truncated

  datatype Report = Report(findings: seq<Finding>, methods: seq<seq<byte>>, members: nat)

  /** What one member adds: its findings, its method when the header could be read, and where the next member starts. */
  datatype Member = Member(findings: seq<Finding>, method_: Option<seq<byte>>, next: Option<nat>)

  function Sum(bytes: seq<byte>): nat {
    if bytes == [] then 0 else Sum(bytes[..|bytes| - 1]) + bytes[|bytes| - 1] as nat
  }

  function StructureOf(findings: seq<Finding>): Structure {
    if ArchiveTruncated in findings then Truncated else if findings == [] then Valid else Damaged
  }

  /** The checks behind a complete `-lh0-` header. */
  function Stored(data: seq<byte>, header: seq<byte>, end: nat): (m: Member)
    requires |header| >= 24 && end <= |data|
    ensures m.next.Some? ==> end <= m.next.value <= |data|
  {
    var sum := if Sum(header[2..]) % 256 != header[1] as nat then [HeaderChecksumMismatch] else [];
    var crcPos, packed := 22 + header[21] as nat, Le32(header, 7);
    if crcPos + 2 > |header| then Member(sum + [HeaderMalformed], Some(header[2..7]), None)
    else if end + packed > |data| then Member(sum + [ArchiveTruncated], Some(header[2..7]), None)
    else
      var crc := if Crc(data[end..end + packed]) != Le16(header, crcPos) then [MemberCrcMismatch] else [];
      Member(sum + crc, Some(header[2..7]), Some(end + packed))
  }

  function MemberAt(data: seq<byte>, pos: nat): (m: Member)
    requires pos < |data|
    ensures m.next.Some? ==> pos < m.next.value <= |data|
  {
    if pos + 22 > |data| then Member([ArchiveTruncated], None, None) else
      var size := data[pos] as nat;
      var end := pos + size + 2;
      if size < 22 || end > |data| then Member([HeaderMalformed], None, None) else
        var header := data[pos..end];
        if header[2..7] != LH0 then Member([MethodUnsupported], Some(header[2..7]), None)
        else Stored(data, header, end)
  }

  function Noted(r: Report, m: Member): Report {
    Report(r.findings + m.findings, if m.method_.Some? then r.methods + [m.method_.value] else r.methods,
           if m.next.Some? then r.members + 1 else r.members)
  }

  function Scan(data: seq<byte>, pos: nat, maxNodes: nat, r: Report): Report
    requires pos <= |data|
    decreases |data| - pos
  {
    if pos == |data| || data[pos] == 0 || r.members >= maxNodes then r else
      var m := MemberAt(data, pos);
      if m.next.None? then Noted(r, m) else Scan(data, m.next.value, maxNodes, Noted(r, m))
  }

  const EMPTY := Report([], [], 0)

  /** `_lha`. */
  method ValidateLha(data: seq<byte>, maxNodes: nat) returns (state: Structure, r: Report)
    ensures r == Scan(data, 0, maxNodes, EMPTY) && state == StructureOf(r.findings)
  {
    hide Crc, Sum;
    var pos, members := 0, 0;
    var findings: seq<Finding>, methods: seq<seq<byte>> := [], [];
    while pos < |data| && data[pos] != 0 && members < maxNodes
      invariant pos <= |data|
      invariant Scan(data, pos, maxNodes, Report(findings, methods, members)) == Scan(data, 0, maxNodes, EMPTY)
      decreases |data| - pos
    {
      var added, method_, next := ReadMember(data, pos);
      findings := findings + added;
      if method_.Some? {
        methods := methods + [method_.value];
      }
      if next.None? {
        return StructureOf(findings), Report(findings, methods, members);
      }
      members := members + 1;
      pos := next.value;
    }
    return StructureOf(findings), Report(findings, methods, members);
  }

  /** The body of the member loop. */
  method ReadMember(data: seq<byte>, pos: nat) returns (findings: seq<Finding>, method_: Option<seq<byte>>, next: Option<nat>)
    requires pos < |data|
    ensures Member(findings, method_, next) == MemberAt(data, pos)
  {
    hide Crc, Sum;
    findings, method_, next := [], None, None;
    if pos + 22 > |data| {
      findings := findings + [ArchiveTruncated];
      return;
    }
    var headerSize := data[pos] as nat;
    var end := pos + headerSize + 2;
    if headerSize < 22 || end > |data| {
      findings := findings + [HeaderMalformed];
      return;
    }
    var header := data[pos..end];
    method_ := Some(header[2..7]);
    if header[2..7] != LH0 {
      findings := findings + [MethodUnsupported];
      return;
    }
    var sum := SumOf(header[2..]);
    if sum % 256 != header[1] as nat {
      findings := findings + [HeaderChecksumMismatch];
    }
    var packed := Le32(header, 7);
    var crcPos := 22 + header[21] as nat;
    if crcPos + 2 > |header| {
      findings := findings + [HeaderMalformed];
      return;
    }
    if end + packed > |data| {
      findings := findings + [ArchiveTruncated];
      return;
    }
    var crc := ComputeCrc(data[end..end + packed]);
    if crc != Le16(header, crcPos) {
      findings := findings + [MemberCrcMismatch];
    }
    next := Some(end + packed);
  }

  method SumOf(bytes: seq<byte>) returns (total: nat)
    ensures total == Sum(bytes)
  {
    total := 0;
    for i := 0 to |bytes|
      invariant total == Sum(bytes[..i])
    {
      total := total + bytes[i] as nat;
      assert bytes[..i + 1][..i] == bytes[..i];
    }
    assert bytes[..|bytes|] == bytes;
  }

  // The writer.

  /** The header after its size and checksum bytes. */
  function Rest(name: seq<byte>, size: nat, crc: nat): (r: seq<byte>)
    requires |name| <= 233 && size < 0x1_0000_0000 && crc < 0x1_0000
    ensures |r| == 22 + |name|
  {
    LH0 + Little(size, 4) + Little(size, 4) + [0, 0, 0, 0, 0x20, 0, |name|] + name + Little(crc, 2)
  }

  function Header(name: seq<byte>, size: nat, crc: nat): (r: seq<byte>)
    requires |name| <= 233 && size < 0x1_0000_0000 && crc < 0x1_0000
    ensures |r| == 24 + |name|
  {
    [22 + |name|, Sum(Rest(name, size, crc)) % 256] + Rest(name, size, crc)
  }

  /** A member written for the payload `written`, holding the payload `held`. */
  datatype Entry = Entry(name: seq<byte>, written: seq<byte>, held: seq<byte>)

  /** What the writer asks: the header size fits its byte and the length its word. */
  predicate Writable(e: Entry) {
    |e.name| <= 233 && |e.written| == |e.held| < 0x1_0000_0000
  }

  function Printed(e: Entry): seq<byte>
    requires Writable(e)
  {
    CrcWord(e.written);
    Header(e.name, |e.written|, Crc(e.written)) + e.held
  }

  function Archive(entries: seq<Entry>): seq<byte>
    requires forall e | e in entries :: Writable(e)
  {
    if entries == [] then [0] else Printed(entries[0]) + Archive(entries[1..])
  }

  /** A field written behind what is `done`; the rest of the buffer is still zero. */
  method WriteField(a: array<byte>, pos: nat, bytes: seq<byte>, ghost done: seq<byte>) returns (ghost more: seq<byte>)
    requires |done| <= pos && pos + |bytes| <= a.Length && a[..] == done + Zeros(a.Length - |done|)
    modifies a
    ensures more == done + Zeros(pos - |done|) + bytes && a[..] == more + Zeros(a.Length - |more|)
  {
    ghost var was := a[..];
    forall i | 0 <= i < |bytes| {
      a[pos + i] := bytes[i];
    }
    more := done + Zeros(pos - |done|) + bytes;
    assert a[..] == was[..pos] + bytes + was[pos + |bytes|..];
    assert was[..pos] == done + Zeros(pos - |done|);
    assert was[pos + |bytes|..] == Zeros(a.Length - |more|);
  }

  lemma NewBuffer(s: seq<byte>, first: byte)
    requires s != [] && s[0] == first && forall i | 0 < i < |s| :: s[i] == 0
    ensures s == [first] + Zeros(|s| - 1)
  {
  }

  lemma NoZeros()
    ensures Zeros(0) == []
  {
  }

  lemma ArchiveOfOne(e: Entry)
    requires Writable(e)
    ensures Archive([e]) == Printed(e) + [0]
  {
    assert [e][1..] == [];
  }

  lemma RestOf(first: byte, name: seq<byte>, size: nat, crc: nat, fields: seq<byte>)
    requires |name| <= 233 && size < 0x1_0000_0000 && crc < 0x1_0000
    requires fields == [first] + Zeros(1) + LH0 + Zeros(0) + Little(size, 4) + Zeros(0) + Little(size, 4) + Zeros(4) + [0x20, 0, |name|]
                       + Zeros(0) + name + Zeros(0) + Little(crc, 2)
    ensures fields[2..] == Rest(name, size, crc)
  {
    hide Little;
    var x, y, m: seq<byte> := Little(size, 4), Little(crc, 2), [0x20, 0, |name|];
    assert Zeros(0) == [] && [first] + Zeros(1) == [first, 0];
    assert Zeros(4) + m == [0, 0, 0, 0, 0x20, 0, |name|];
    assert fields == [first, 0] + (LH0 + x + x + (Zeros(4) + m) + name + y);
  }

  /** `make_lh0`. */
  method MakeLh0(name: seq<byte>, payload: seq<byte>) returns (archive: seq<byte>)
    requires |name| <= 233 && |payload| < 0x1_0000_0000
    ensures archive == Archive([Entry(name, payload, payload)])
  {
    hide Crc, Sum, Zeros, Little;
    var size := |payload|;
    var crc := ComputeCrc(payload);
    CrcWord(payload);
    var header := new byte[24 + |name|](i => 0);
    header[0] := 22 + |name|;
    assert header[..] == [22 + |name|] + Zeros(23 + |name|) by { NewBuffer(header[..], 22 + |name|); }
    ghost var fields := WriteField(header, 2, LH0, [22 + |name|]);
    fields := WriteField(header, 7, Little(size, 4), fields);
    fields := WriteField(header, 11, Little(size, 4), fields);
    fields := WriteField(header, 19, [0x20, 0, |name|], fields);
    fields := WriteField(header, 22, name, fields);
    fields := WriteField(header, 22 + |name|, Little(crc, 2), fields);
    NoZeros();
    RestOf(22 + |name|, name, size, crc, fields);
    var sum := SumOf(header[2..]);
    header[1] := sum % 256;
    assert header[2..] == Rest(name, size, crc);
    assert header[..] == [header[0], header[1]] + header[2..];
    archive := header[..] + payload + [0];
    ArchiveOfOne(Entry(name, payload, payload));
  }

  // Every written archive is valid, and every damage to a payload that its checksum sees is reported.

  lemma Regroup(p: seq<byte>, l: seq<byte>, x: seq<byte>, m: seq<byte>, n: seq<byte>, y: seq<byte>)
    ensures p + (l + x + x + m + n + y) == (p + l) + x + (x + m + n + y)
    ensures p + (l + x + x + m + n + y) == (p + l + x + x) + m + (n + y)
    ensures p + (l + x + x + m + n + y) == (p + l + x + x + m + n) + y + []
  {
  }

  lemma HeaderFields(name: seq<byte>, size: nat, crc: nat)
    requires |name| <= 233 && size < 0x1_0000_0000 && crc < 0x1_0000
    ensures var h := Header(name, size, crc);
            && h[0] as nat == 22 + |name| && h[2..7] == LH0 && Sum(h[2..]) % 256 == h[1] as nat
            && Le32(h, 7) == size && h[21] as nat == |name| && Le16(h, 22 + |name|) == crc
  {
    hide Sum, Little, Le32, Le16;
    var h, x: seq<byte>, y := Header(name, size, crc), Little(size, 4), Little(crc, 2);
    var p: seq<byte>, m: seq<byte> := [h[0], h[1]], [0, 0, 0, 0, 0x20, 0, |name|];
    assert h[2..] == Rest(name, size, crc);
    Regroup(p, LH0, x, m, name, y);
    LittleReads(p + LH0, size, x + m + name + y);
    assert h == (p + LH0 + x + x) + m + (name + y);
    assert h[15..22] == m;
    assert h[21] == m[6];
    assert h == (p + LH0 + x + x + m + name) + y + [];
    LittleReads(p + LH0 + x + x + m + name, crc, []);
  }

  function Damage(e: Entry): seq<Finding> {
    if Crc(e.held) == Crc(e.written) then [] else [MemberCrcMismatch]
  }

  /** A written member is read back whole, wherever it lies; the one thing found is a payload that does not match. */
  lemma MemberReadBack(before: seq<byte>, e: Entry, after: seq<byte>)
    requires Writable(e)
    ensures Printed(e) != [] && Printed(e)[0] != 0
    ensures MemberAt(before + Printed(e) + after, |before|) == Member(Damage(e), Some(LH0), Some(|before| + |Printed(e)|))
  {
    hide Crc, Sum;
    CrcWord(e.written);
    var header := Header(e.name, |e.written|, Crc(e.written));
    HeaderFields(e.name, |e.written|, Crc(e.written));
    var data := before + Printed(e) + after;
    var end := |before| + |header|;
    assert data[|before|..end] == header;
    assert data[end..end + |e.held|] == e.held;
    assert data[|before|] == header[0];
  }

  function Damages(entries: seq<Entry>): seq<Finding> {
    if entries == [] then [] else Damage(entries[0]) + Damages(entries[1..])
  }

  function Methods(n: nat): seq<seq<byte>> {
    if n == 0 then [] else [LH0] + Methods(n - 1)
  }

  /** What validation reports of the entries that come next, of which it still takes at most `room`. */
  function Expected(r: Report, entries: seq<Entry>, room: nat): Report {
    var n := if |entries| <= room then |entries| else room;
    Report(r.findings + Damages(entries[..n]), r.methods + Methods(n), r.members + n)
  }

  lemma ExpectedStep(r: Report, entries: seq<Entry>, room: nat, next: nat)
    requires entries != [] && room > 0
    ensures Expected(Noted(r, Member(Damage(entries[0]), Some(LH0), Some(next))), entries[1..], room - 1) == Expected(r, entries, room)
  {
    hide Damage;
    var n := if |entries| <= room then |entries| else room;
    assert entries[..n][1..] == entries[1..][..n - 1];
    assert r.methods + Methods(n) == r.methods + [LH0] + Methods(n - 1);
    assert r.findings + Damages(entries[..n]) == r.findings + Damage(entries[0]) + Damages(entries[1..][..n - 1]);
  }

  lemma {:induction false} ScanReadsBack(before: seq<byte>, entries: seq<Entry>, maxNodes: nat, r: Report)
    requires (forall e | e in entries :: Writable(e)) && r.members <= maxNodes
    ensures Scan(before + Archive(entries), |before|, maxNodes, r) == Expected(r, entries, maxNodes - r.members)
    decreases |entries|
  {
    hide Damage, Expected, Printed, MemberAt, Writable;
    var data := before + Archive(entries);
    if entries == [] || r.members == maxNodes {
      NothingExpected(r, entries, maxNodes - r.members);
      assert entries == [] ==> data[|before|] == 0;
    } else {
      var e, rest := entries[0], Archive(entries[1..]);
      assert data == before + Printed(e) + rest;
      MemberReadBack(before, e, rest);
      var m := MemberAt(data, |before|);
      assert data[|before|] == Printed(e)[0];
      ExpectedStep(r, entries, maxNodes - r.members, m.next.value);
      assert data == (before + Printed(e)) + rest;
      ScanReadsBack(before + Printed(e), entries[1..], maxNodes, Noted(r, m));
    }
  }

  lemma NothingExpected(r: Report, entries: seq<Entry>, room: nat)
    requires entries == [] || room == 0
    ensures Expected(r, entries, room) == r
  {
  }

  /** Validating a written archive, of any number of members, finds exactly the payloads that do not match. */
  lemma ArchiveReport(entries: seq<Entry>, maxNodes: nat)
    requires forall e | e in entries :: Writable(e)
    ensures Scan(Archive(entries), 0, maxNodes, EMPTY) == Expected(EMPTY, entries, maxNodes)
  {
    hide Scan, Expected;
    assert [] + Archive(entries) == Archive(entries);
    ScanReadsBack([], entries, maxNodes, EMPTY);
  }

  lemma {:induction false} NoDamage(entries: seq<Entry>)
    requires forall e | e in entries :: e.held == e.written
    ensures Damages(entries) == []
  {
    if entries != [] {
      assert entries[0] in entries;
      NoDamage(entries[1..]);
    }
  }

  /** Every archive the writer makes is VALID. */
  lemma WrittenIsValid(entries: seq<Entry>, maxNodes: nat)
    requires forall e | e in entries :: Writable(e) && e.held == e.written
    ensures var r := Scan(Archive(entries), 0, maxNodes, EMPTY);
            StructureOf(r.findings) == Valid && (|entries| <= maxNodes ==> r.members == |entries|)
  {
    hide Scan, Archive, Damages, Methods, Writable;
    ArchiveReport(entries, maxNodes);
    var n := if |entries| <= maxNodes then |entries| else maxNodes;
    NoDamage(entries[..n]);
  }

  lemma {:induction false} OneDamage(entries: seq<Entry>, k: nat)
    requires k < |entries|
    requires forall j | 0 <= j < |entries| && j != k :: entries[j].held == entries[j].written
    ensures Damages(entries) == Damage(entries[k])
  {
    if k == 0 {
      NoDamage(entries[1..]);
    } else {
      OneDamage(entries[1..], k - 1);
    }
  }

  /**
   In an archive of any number of members, a change confined to two neighbouring payload bytes of one member is reported
   as one CRC mismatch, and nothing else is.
   */
  lemma AdjacentDamageReported(entries: seq<Entry>, k: nat, i: nat, maxNodes: nat)
    requires (forall e | e in entries :: Writable(e)) && k < |entries| <= maxNodes
    requires forall j | 0 <= j < |entries| && j != k :: entries[j].held == entries[j].written
    requires DifferAt(entries[k].written, entries[k].held, i) && entries[k].written != entries[k].held
    ensures var r := Scan(Archive(entries), 0, maxNodes, EMPTY);
            r.findings == [MemberCrcMismatch] && r.members == |entries| && StructureOf(r.findings) == Damaged
  {
    hide Scan, Archive, Crc, DifferAt, Writable, Damages, Methods;
    ArchiveReport(entries, maxNodes);
    NearbyChangeSeen(entries[k].written, entries[k].held, i);
    assert entries[..|entries|] == entries;
    OneDamage(entries, k);
  }
}

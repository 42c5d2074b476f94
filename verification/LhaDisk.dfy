/** An LHA archive member by member, as its bytes lie there, and the report that follows from them. */
module LhaDisk {
  import opened Bytes
  import opened Crc16
  import opened CrcPolynomial
  import opened Lha
  import opened Writing

  function ByteTotal(bytes: seq<byte>): nat {
    if bytes == [] then 0 else bytes[0] as nat + ByteTotal(bytes[1..])
  }

  lemma {:induction false} TotalAppend(bytes: seq<byte>, last: byte)
    ensures ByteTotal(bytes + [last]) == ByteTotal(bytes) + last as nat
  {
    if bytes != [] {
      assert (bytes + [last])[1..] == bytes[1..] + [last];
      TotalAppend(bytes[1..], last);
    } else {
      assert [last][1..] == [];
    }
  }

  lemma {:induction false} TotalIsSum(bytes: seq<byte>)
    ensures ByteTotal(bytes) == Sum(bytes)
  {
    if bytes != [] {
      var init, last := bytes[..|bytes| - 1], bytes[|bytes| - 1];
      TotalIsSum(init);
      TotalAppend(init, last);
      assert init + [last] == bytes;
    }
  }

  /**
   The members up to what ends the scan: nothing left, a zero byte or the limit; fewer bytes than a header needs; a header
   of less than 22 bytes or longer than the archive; another method; a header without room for its CRC; a payload that
   is cut off.
   */
  datatype Members =
    | Ended
    | Cut
    | Malformed
    | Unsupported(method_: seq<byte>)
    | NoCrc(summed: bool)
    | Overrun(summed: bool, packed: nat)
    | Stored(summed: bool, packed: nat, crc: nat, matches: bool, rest: Members)

  /** The bytes behind the header's first two add up, modulo 256, to the second. */
  predicate SummedAt(data: seq<byte>, pos: nat, end: nat)
    requires pos + 2 <= end <= |data|
  {
    ByteTotal(data[pos + 2..end]) % 256 == data[pos + 1] as nat
  }

  /** The payload's bits and the CRC's are a multiple of the generator. */
  ghost predicate CrcFits(data: seq<byte>, start: nat, end: nat, crc: nat)
    requires start <= end <= |data| && crc < 0x1_0000
  {
    IsMultiple(Bits(WithCrc(data[start..end], crc)))
  }

  ghost predicate MembersAt(data: seq<byte>, pos: nat, room: nat, members: Members)
    requires pos <= |data|
    decreases members
  {
    if pos == |data| || data[pos] == 0 || room == 0 then members.Ended?
    else if pos + 22 > |data| then members.Cut?
    else
      var end, crcPos := pos + 2 + data[pos] as nat, pos + 22 + data[pos + 21] as nat;
      if data[pos] < 22 || end > |data| then members.Malformed?
      else if !At(data, pos + 2, [0x2D, 0x6C, 0x68, 0x30, 0x2D]) then members == Unsupported(data[pos + 2..pos + 7])
      else if crcPos + 2 > end then members == NoCrc(SummedAt(data, pos, end))
      else
        match members
        case Overrun(summed, packed) =>
          FullIs(data, pos + 7, packed) && end + packed > |data| && summed == SummedAt(data, pos, end)
        case Stored(summed, packed, crc, matches, rest) =>
          && FullIs(data, pos + 7, packed) && HalfIs(data, crcPos, crc) && end + packed <= |data|
          && summed == SummedAt(data, pos, end) && matches == CrcFits(data, end, end + packed, crc)
          && MembersAt(data, end + packed, room - 1, rest)
        case _ => false
  }

  /** The findings, in order: a header's sum before what else is wrong with the member. */
  function Findings(members: Members): seq<Finding> {
    match members
    case Ended => []
    case Cut => [ArchiveTruncated]
    case Malformed => [HeaderMalformed]
    case Unsupported(_) => [MethodUnsupported]
    case NoCrc(summed) => Unsummed(summed) + [HeaderMalformed]
    case Overrun(summed, _) => Unsummed(summed) + [ArchiveTruncated]
    case Stored(summed, _, _, matches, rest) =>
      Unsummed(summed) + (if matches then [] else [MemberCrcMismatch]) + Findings(rest)
  }

  function Unsummed(summed: bool): seq<Finding> {
    if summed then [] else [HeaderChecksumMismatch]
  }

  function MethodsOf(members: Members): seq<seq<byte>> {
    match members
    case Ended => []
    case Cut => []
    case Malformed => []
    case Unsupported(m) => [m]
    case NoCrc(_) => [LH0]
    case Overrun(_, _) => [LH0]
    case Stored(_, _, _, _, rest) => [LH0] + MethodsOf(rest)
  }

  function Count(members: Members): nat {
    if members.Stored? then 1 + Count(members.rest) else 0
  }

  /** What one member adds to the report, and the member after it. */
  function FirstOf(members: Members, next: nat): Member {
    match members
    case Stored(summed, _, _, matches, _) =>
      Member(Unsummed(summed) + if matches then [] else [MemberCrcMismatch], Some(LH0), Some(next))
    case _ => Member(Findings(members), if MethodsOf(members) == [] then None else Some(MethodsOf(members)[0]), None)
  }

  /** The method's five bytes. */
  lemma MethodIff(data: seq<byte>, pos: nat)
    requires pos + 7 <= |data|
    ensures At(data, pos + 2, LH0) <==> data[pos + 2..pos + 7] == LH0
  {
    if At(data, pos + 2, LH0) {
      AtSlice(data, pos + 2, LH0);
    }
  }

  lemma HeaderSlice(data: seq<byte>, pos: nat, end: nat)
    requires pos + 24 <= end <= |data|
    ensures var header := data[pos..end];
            && header[2..7] == data[pos + 2..pos + 7] && header[2..] == data[pos + 2..end]
            && header[1] == data[pos + 1] && header[21] == data[pos + 21]
            && Le32(header, 7) == Le32(data, pos + 7)
            && (forall k: nat | k + 2 <= |header| :: Le16(header, k) == Le16(data, pos + k))
  {
    SliceOfSlice(data, pos, end - pos, 2, 7);
    SliceOfSlice(data, pos, end - pos, 2, end - pos);
  }

  /** One member is read as it lies there. */
  lemma MemberReads(data: seq<byte>, pos: nat, room: nat, members: Members)
    requires pos < |data| && data[pos] != 0 && room > 0 && MembersAt(data, pos, room, members)
    ensures members.Stored? ==>
              var next := pos + 2 + data[pos] as nat + members.packed;
              next <= |data| && MemberAt(data, pos) == FirstOf(members, next) && MembersAt(data, next, room - 1, members.rest)
    ensures !members.Stored? ==> MemberAt(data, pos) == FirstOf(members, 0)
  {
    hide Sum, ByteTotal, Crc, Le16, Le32, At, IsMultiple, WithCrc, Bits, HalfIs, FullIs;
    var end := pos + 2 + data[pos] as nat;
    if pos + 22 <= |data| && data[pos] >= 22 && end <= |data| {
      var crcPos := pos + 22 + data[pos + 21] as nat;
      HeaderSlice(data, pos, end);
      MethodIff(data, pos);
      TotalIsSum(data[pos + 2..end]);
      if members.Overrun? || members.Stored? {
        FullIff(data, pos + 7, members.packed);
      }
      if members.Stored? {
        HalfIff(data, crcPos, members.crc);
        CrcIsTheRemainder(data[end..end + members.packed], members.crc);
      }
    }
  }

  function Plus(r: Report, members: Members): Report {
    Report(r.findings + Findings(members), r.methods + MethodsOf(members), r.members + Count(members))
  }

  lemma PlusOne(r: Report, members: Members, next: nat)
    ensures members.Stored? ==> Plus(Noted(r, FirstOf(members, next)), members.rest) == Plus(r, members)
    ensures !members.Stored? && !members.Ended? ==> Noted(r, FirstOf(members, next)) == Plus(r, members)
    ensures members.Ended? ==> r == Plus(r, members)
  {
    if members.Stored? {
      var own := Unsummed(members.summed) + if members.matches then [] else [MemberCrcMismatch];
      assert r.findings + own + Findings(members.rest) == r.findings + (own + Findings(members.rest));
      assert r.methods + [LH0] + MethodsOf(members.rest) == r.methods + ([LH0] + MethodsOf(members.rest));
    } else if members.Ended? {
      assert r.findings + [] == r.findings && r.methods + [] == r.methods;
    } else {
      assert r.methods + [] == r.methods;
      assert MethodsOf(members) == [] || MethodsOf(members) == [MethodsOf(members)[0]];
    }
  }

  /** The member loop reports what the members say. */
  lemma {:induction false} MembersRead(data: seq<byte>, pos: nat, maxNodes: nat, r: Report, members: Members)
    requires pos <= |data| && r.members <= maxNodes && MembersAt(data, pos, maxNodes - r.members, members)
    ensures Scan(data, pos, maxNodes, r) == Plus(r, members)
    decreases members
  {
    hide MembersAt, MemberAt, FirstOf, Plus, Findings, MethodsOf, Count;
    if pos == |data| || data[pos] == 0 || r.members == maxNodes {
      assert members.Ended? by { AtEnd(data, pos, maxNodes - r.members, members); }
      PlusOne(r, members, 0);
    } else {
      NotAtEnd(data, pos, maxNodes - r.members, members);
      MemberReads(data, pos, maxNodes - r.members, members);
      if members.Stored? {
        var next := pos + 2 + data[pos] as nat + members.packed;
        FirstGoesOn(members, next);
        PlusOne(r, members, next);
        MembersRead(data, next, maxNodes, Noted(r, FirstOf(members, next)), members.rest);
      } else {
        FirstGoesOn(members, 0);
        PlusOne(r, members, 0);
      }
    }
  }

  lemma FirstGoesOn(members: Members, next: nat)
    ensures FirstOf(members, next).next == if members.Stored? then Some(next) else None
  {
  }

  lemma AtEnd(data: seq<byte>, pos: nat, room: nat, members: Members)
    requires pos <= |data| && MembersAt(data, pos, room, members) && (pos == |data| || data[pos] == 0 || room == 0)
    ensures members.Ended?
  {
  }

  lemma NotAtEnd(data: seq<byte>, pos: nat, room: nat, members: Members)
    requires pos < |data| && MembersAt(data, pos, room, members) && data[pos] != 0 && room > 0
    ensures !members.Ended?
  {
  }

  lemma {:induction false} MembersFound(data: seq<byte>, pos: nat, room: nat) returns (members: Members)
    requires pos <= |data|
    ensures MembersAt(data, pos, room, members)
    decreases |data| - pos
  {
    hide ByteTotal, Le16, Le32, At, IsMultiple, WithCrc, Bits, HalfIs, FullIs;
    if pos == |data| || data[pos] == 0 || room == 0 {
      return Ended;
    }
    if pos + 22 > |data| {
      return Cut;
    }
    var end, crcPos := pos + 2 + data[pos] as nat, pos + 22 + data[pos + 21] as nat;
    if data[pos] < 22 || end > |data| {
      return Malformed;
    }
    if !At(data, pos + 2, [0x2D, 0x6C, 0x68, 0x30, 0x2D]) {
      return Unsupported(data[pos + 2..pos + 7]);
    }
    var summed := SummedAt(data, pos, end);
    if crcPos + 2 > end {
      return NoCrc(summed);
    }
    var packed, crc := Le32(data, pos + 7), Le16(data, crcPos);
    FullIff(data, pos + 7, packed);
    HalfIff(data, crcPos, crc);
    if end + packed > |data| {
      return Overrun(summed, packed);
    }
    var rest := MembersFound(data, end + packed, room - 1);
    members := Stored(summed, packed, crc, CrcFits(data, end, end + packed, crc), rest);
  }

  /** Every member is whole, its header adds up and its payload fits its CRC. */
  predicate AllWhole(members: Members) {
    members.Ended? || (members.Stored? && members.summed && members.matches && AllWhole(members.rest))
  }

  lemma {:induction false} NoFindings(members: Members)
    ensures Findings(members) == [] <==> AllWhole(members)
  {
    if members.Stored? {
      NoFindings(members.rest);
    }
  }

  /** The report on any bytes is that of the members lying there, and they are VALID exactly when all members are whole. */
  lemma ScanIff(data: seq<byte>, maxNodes: nat, r: Report)
    ensures Scan(data, 0, maxNodes, EMPTY) == r
       <==> exists members :: MembersAt(data, 0, maxNodes, members)
                           && r == Report(Findings(members), MethodsOf(members), Count(members))
    ensures StructureOf(Scan(data, 0, maxNodes, EMPTY).findings) == Valid
       <==> exists members :: MembersAt(data, 0, maxNodes, members) && AllWhole(members)
  {
    hide Scan, MembersAt, Findings, MethodsOf, Count, AllWhole;
    forall members | MembersAt(data, 0, maxNodes, members)
      ensures Scan(data, 0, maxNodes, EMPTY) == Report(Findings(members), MethodsOf(members), Count(members))
      ensures Findings(members) == [] <==> AllWhole(members)
    {
      MembersRead(data, 0, maxNodes, EMPTY, members);
      NoFindings(members);
      assert [] + Findings(members) == Findings(members) && [] + MethodsOf(members) == MethodsOf(members);
    }
    var members := MembersFound(data, 0, maxNodes);
  }
}

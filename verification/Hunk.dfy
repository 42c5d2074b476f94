/** The Amiga HUNK parser of `executable.py`. */
module Hunk {
  import opened Bytes

  const MAX_NAME := 4096
  const MAX_SECTIONS := 1024
  const MAX_SYMBOLS := 100_000
  const MAX_HEADERS := 4096

  datatype Error = Truncated | NameTooLong | BadTable | TooManyRelocations | TooManySymbols | TooManyRecords | MissingEnd

  /** A value and the position after it. */
  datatype Read<+T> = Read(value: T, next: nat)

  datatype Group = Group(target: nat, offsets: seq<nat>)

  datatype Symbol = Symbol(name: seq<byte>, value: nat)

  datatype Body = Sized(longs: nat) | Relocations(groups: seq<Group>) | Symbols(symbols: seq<Symbol>) | End | Unsupported

  datatype Record = Record(kind: nat, flags: nat, hunk: nat, body: Body)

  datatype Declared = Declared(longs: nat, flags: nat)

  datatype Header = Header(resident: seq<seq<byte>>, tableSize: nat, first: nat, last: nat, declared: seq<Declared>)

  /** What a parse that returns reports; `complete` is the absence of the error list. */
  datatype Parsed = Parsed(header: Header, records: seq<Record>, complete: bool)

  /** `_need` does not raise. */
  predicate Has(data: seq<byte>, pos: nat, size: nat) {
    pos <= |data| && size <= |data| - pos
  }

  /** `rstrip(b"\0")`. */
  function TrimZeros(name: seq<byte>): seq<byte> {
    if name != [] && name[|name| - 1] == 0 then TrimZeros(name[..|name| - 1]) else name
  }

  function Words(data: seq<byte>, pos: nat, count: nat): (r: seq<nat>)
    requires Has(data, pos, 4 * count)
    ensures |r| == count
  {
    if count == 0 then [] else Words(data, pos, count - 1) + [Be32(data, pos + 4 * (count - 1))]
  }

  function Declare(raw: nat): Declared {
    Declared(raw % 0x4000_0000, raw / 0x4000_0000)
  }

  function Declares(words: seq<nat>): seq<Declared> {
    if words == [] then [] else Declares(words[..|words| - 1]) + [Declare(words[|words| - 1])]
  }

  /** The resident names, to the zero that ends them. */
  function Names(data: seq<byte>, pos: nat, names: seq<seq<byte>>): (r: Result<Read<seq<seq<byte>>>, Error>)
    ensures r.Ok? ==> pos < r.value.next <= |data|
    decreases |data| - pos
  {
    if !Has(data, pos, 4) then Err(Truncated) else
      var longs := Be32(data, pos);
      if longs == 0 then Ok(Read(names, pos + 4))
      else if longs > MAX_NAME / 4 then Err(NameTooLong)
      else if !Has(data, pos + 4, 4 * longs) then Err(Truncated)
      else Names(data, pos + 4 + 4 * longs, names + [TrimZeros(data[pos + 4..pos + 4 + 4 * longs])])
  }

  function Table(data: seq<byte>, pos: nat, names: seq<seq<byte>>): (r: Result<Read<Header>, Error>)
    ensures r.Ok? ==> pos < r.value.next <= |data|
    ensures r.Ok? ==>
              var h := r.value.value;
              0 < h.tableSize <= MAX_SECTIONS && h.last + 1 == h.first + h.tableSize && |h.declared| == h.tableSize
  {
    if !Has(data, pos, 12) then Err(Truncated) else
      var tableSize, first, last := Be32(data, pos), Be32(data, pos + 4), Be32(data, pos + 8);
      if tableSize == 0 || tableSize > MAX_SECTIONS || last < first || last - first + 1 != tableSize then Err(BadTable)
      else if !Has(data, pos + 12, 4 * tableSize) then Err(Truncated)
      else
        DeclaresSize(Words(data, pos + 12, tableSize));
        Ok(Read(Header(names, tableSize, first, last, Declares(Words(data, pos + 12, tableSize))), pos + 12 + 4 * tableSize))
  }

  lemma DeclaresSize(words: seq<nat>)
    ensures |Declares(words)| == |words|
  {
  }

  function Groups(data: seq<byte>, pos: nat, groups: seq<Group>): (r: Result<Read<seq<Group>>, Error>)
    ensures r.Ok? ==> pos < r.value.next <= |data|
    decreases |data| - pos
  {
    if !Has(data, pos, 4) then Err(Truncated) else
      var count := Be32(data, pos);
      if count == 0 then Ok(Read(groups, pos + 4))
      else if count > MAX_SYMBOLS then Err(TooManyRelocations)
      else if !Has(data, pos + 4, 4 + 4 * count) then Err(Truncated)
      else Groups(data, pos + 8 + 4 * count, groups + [Group(Be32(data, pos + 4), Words(data, pos + 8, count))])
  }

  function SymbolList(data: seq<byte>, pos: nat, symbols: seq<Symbol>): (r: Result<Read<seq<Symbol>>, Error>)
    ensures r.Ok? ==> pos < r.value.next <= |data|
    decreases |data| - pos
  {
    if !Has(data, pos, 4) then Err(Truncated) else
      var longs := Be32(data, pos);
      if longs == 0 then Ok(Read(symbols, pos + 4))
      else if |symbols| >= MAX_SYMBOLS || longs > MAX_NAME / 4 then Err(TooManySymbols)
      else if !Has(data, pos + 4, 4 * longs + 4) then Err(Truncated)
      else
        var end := pos + 4 + 4 * longs;
        SymbolList(data, end + 4, symbols + [Symbol(TrimZeros(data[pos + 4..end]), Be32(data, end))])
  }

  predicate IsSized(kind: nat) {
    kind in {0x3E9, 0x3EA, 0x3EB, 0x3F1}
  }

  predicate IsRelocation(kind: nat) {
    kind in {0x3EC, 0x3ED, 0x3EE, 0x3F7, 0x3F8, 0x3F9, 0x3FC, 0x3FD}
  }

  function SizedBody(data: seq<byte>, pos: nat, kind: nat): (r: Result<Read<Body>, Error>)
    ensures r.Ok? ==> pos < r.value.next <= |data| && r.value.value.Sized?
  {
    if !Has(data, pos, 4) then Err(Truncated) else
      var longs := Be32(data, pos);
      // BSS (0x3EB) has a size and no bytes.
      if kind == 0x3EB then Ok(Read(Sized(longs), pos + 4))
      else if !Has(data, pos + 4, 4 * longs) then Err(Truncated)
      else Ok(Read(Sized(longs), pos + 4 + 4 * longs))
  }

  function ReadBody(data: seq<byte>, pos: nat, kind: nat): (r: Result<Read<Body>, Error>)
    requires pos <= |data|
    ensures r.Ok? ==> pos <= r.value.next <= |data|
  {
    if IsSized(kind) then SizedBody(data, pos, kind)
    else if IsRelocation(kind) then
      match Groups(data, pos, [])
      case Err(e) => Err(e)
      case Ok(g) => Ok(Read(Relocations(g.value), g.next))
    else if kind == 0x3F0 then
      match SymbolList(data, pos, [])
      case Err(e) => Err(e)
      case Ok(s) => Ok(Read(Symbols(s.value), s.next))
    else if kind == 0x3F2 then Ok(Read(End, pos))
    else Ok(Read(Unsupported, pos))
  }

  /** One record of the hunk with index `hunk`. */
  function ReadRecord(data: seq<byte>, pos: nat, hunk: nat): (r: Result<Read<Record>, Error>)
    ensures r.Ok? ==> pos < r.value.next <= |data|
  {
    if !Has(data, pos, 4) then Err(Truncated) else
      var kind, flags := Be32(data, pos) % 0x4000_0000, Be32(data, pos) / 0x4000_0000;
      match ReadBody(data, pos + 4, kind)
      case Err(e) => Err(e)
      case Ok(body) => Ok(Read(Record(kind, flags, hunk, body.value), body.next))
  }

  /** The record loop, `ended` of the hunks being over. */
  function Records(data: seq<byte>, pos: nat, h: Header, records: seq<Record>, ended: nat): (r: Result<Read<Parsed>, Error>)
    requires ended < h.tableSize
    ensures r.Ok? ==> pos < r.value.next <= |data|
    decreases |data| - pos
  {
    if pos >= |data| then Err(MissingEnd) else
      match ReadRecord(data, pos, h.first + ended)
      case Err(e) => Err(e)
      case Ok(read) =>
        var more := records + [read.value];
        if read.value.body.Unsupported? then Ok(Read(Parsed(h, more, false), read.next)) else
          var over := if read.value.body.End? then ended + 1 else ended;
          if over == h.tableSize then Ok(Read(Parsed(h, more, true), read.next))
          else if |more| > MAX_HEADERS then Err(TooManyRecords)
          else Records(data, read.next, h, more, over)
  }

  /** `_parse_hunk`, with the number of bytes consumed. */
  function Parse(data: seq<byte>): (r: Result<Read<Parsed>, Error>)
    ensures r.Ok? ==> 4 < r.value.next <= |data|
  {
    match Names(data, 4, [])
    case Err(e) => Err(e)
    case Ok(names) =>
      match Table(data, names.next, names.value)
      case Err(e) => Err(e)
      case Ok(h) => Records(data, h.next, h.value, [], 0)
  }

  // The parser.

  method ReadNames(data: seq<byte>) returns (r: Result<Read<seq<seq<byte>>>, Error>)
    ensures r == Names(data, 4, [])
  {
    var cursor, resident: seq<seq<byte>> := 4, [];
    while true
      invariant Names(data, cursor, resident) == Names(data, 4, [])
      decreases |data| - cursor
    {
      if !Has(data, cursor, 4) {
        return Err(Truncated);
      }
      var longs := Be32(data, cursor);
      cursor := cursor + 4;
      if longs == 0 {
        return Ok(Read(resident, cursor));
      }
      if longs > MAX_NAME / 4 {
        return Err(NameTooLong);
      }
      if !Has(data, cursor, longs * 4) {
        return Err(Truncated);
      }
      resident := resident + [TrimZeros(data[cursor..cursor + longs * 4])];
      cursor := cursor + longs * 4;
    }
  }

  method ReadTable(data: seq<byte>, start: nat, resident: seq<seq<byte>>) returns (r: Result<Read<Header>, Error>)
    ensures r == Table(data, start, resident)
  {
    var cursor := start;
    if !Has(data, cursor, 12) {
      return Err(Truncated);
    }
    var tableSize, first, last := Be32(data, cursor), Be32(data, cursor + 4), Be32(data, cursor + 8);
    cursor := cursor + 12;
    if tableSize == 0 || tableSize > MAX_SECTIONS || last < first || last - first + 1 != tableSize {
      return Err(BadTable);
    }
    if !Has(data, cursor, tableSize * 4) {
      return Err(Truncated);
    }
    var declared: seq<Declared> := [];
    for i := 0 to tableSize
      invariant cursor == start + 12 + 4 * i
      invariant Has(data, start + 12, 4 * i) && declared == Declares(Words(data, start + 12, i))
    {
      declared := declared + [Declare(Be32(data, cursor))];
      cursor := cursor + 4;
      assert Words(data, start + 12, i + 1)[..i] == Words(data, start + 12, i);
    }
    return Ok(Read(Header(resident, tableSize, first, last, declared), cursor));
  }

  method ReadGroups(data: seq<byte>, start: nat) returns (r: Result<Read<seq<Group>>, Error>)
    ensures r == Groups(data, start, [])
  {
    var cursor, groups: seq<Group> := start, [];
    while true
      invariant Groups(data, cursor, groups) == Groups(data, start, [])
      decreases |data| - cursor
    {
      if !Has(data, cursor, 4) {
        return Err(Truncated);
      }
      var count := Be32(data, cursor);
      cursor := cursor + 4;
      if count == 0 {
        return Ok(Read(groups, cursor));
      }
      if count > MAX_SYMBOLS {
        return Err(TooManyRelocations);
      }
      if !Has(data, cursor, 4 + count * 4) {
        return Err(Truncated);
      }
      var target := Be32(data, cursor);
      cursor := cursor + 4;
      groups := groups + [Group(target, Words(data, cursor, count))];
      cursor := cursor + count * 4;
    }
  }

  method ReadSymbols(data: seq<byte>, start: nat) returns (r: Result<Read<seq<Symbol>>, Error>)
    ensures r == SymbolList(data, start, [])
  {
    var cursor, symbols: seq<Symbol> := start, [];
    while true
      invariant SymbolList(data, cursor, symbols) == SymbolList(data, start, [])
      decreases |data| - cursor
    {
      if !Has(data, cursor, 4) {
        return Err(Truncated);
      }
      var longs := Be32(data, cursor);
      cursor := cursor + 4;
      if longs == 0 {
        return Ok(Read(symbols, cursor));
      }
      if |symbols| >= MAX_SYMBOLS || longs > MAX_NAME / 4 {
        return Err(TooManySymbols);
      }
      if !Has(data, cursor, longs * 4 + 4) {
        return Err(Truncated);
      }
      var name := TrimZeros(data[cursor..cursor + longs * 4]);
      cursor := cursor + longs * 4;
      symbols := symbols + [Symbol(name, Be32(data, cursor))];
      cursor := cursor + 4;
    }
  }

  method ReadBodyAt(data: seq<byte>, start: nat, kind: nat) returns (r: Result<Read<Body>, Error>)
    requires start <= |data|
    ensures r == ReadBody(data, start, kind)
  {
    hide Groups, SymbolList;
    var cursor := start;
    if kind in {0x3E9, 0x3EA, 0x3EB, 0x3F1} {
      if !Has(data, cursor, 4) {
        return Err(Truncated);
      }
      var longs := Be32(data, cursor);
      cursor := cursor + 4;
      if kind != 0x3EB {
        if !Has(data, cursor, longs * 4) {
          return Err(Truncated);
        }
        cursor := cursor + longs * 4;
      }
      return Ok(Read(Sized(longs), cursor));
    } else if kind in {0x3EC, 0x3ED, 0x3EE, 0x3F7, 0x3F8, 0x3F9, 0x3FC, 0x3FD} {
      var groups := ReadGroups(data, cursor);
      return match groups case Err(e) => Err(e) case Ok(g) => Ok(Read(Relocations(g.value), g.next));
    } else if kind == 0x3F0 {
      var symbols := ReadSymbols(data, cursor);
      return match symbols case Err(e) => Err(e) case Ok(s) => Ok(Read(Symbols(s.value), s.next));
    } else if kind == 0x3F2 {
      return Ok(Read(End, cursor));
    } else {
      return Ok(Read(Unsupported, cursor));
    }
  }

  /** The record loop: `currentHunk` and `ended` advance together, at every END. */
  method ReadRecords(data: seq<byte>, start: nat, h: Header) returns (r: Result<Read<Parsed>, Error>)
    requires h.tableSize > 0
    ensures r == Records(data, start, h, [], 0)
  {
    hide ReadBody;
    var cursor, records: seq<Record>, currentHunk, ended := start, [], h.first, 0;
    while cursor < |data|
      invariant ended < h.tableSize && currentHunk == h.first + ended
      invariant Records(data, cursor, h, records, ended) == Records(data, start, h, [], 0)
      decreases |data| - cursor
    {
      if !Has(data, cursor, 4) {
        return Err(Truncated);
      }
      var raw := Be32(data, cursor);
      cursor := cursor + 4;
      var body := ReadBodyAt(data, cursor, raw % 0x4000_0000);
      if body.Err? {
        return Err(body.error);
      }
      cursor := body.value.next;
      records := records + [Record(raw % 0x4000_0000, raw / 0x4000_0000, currentHunk, body.value.value)];
      if body.value.value.Unsupported? {
        return Ok(Read(Parsed(h, records, false), cursor));
      }
      if body.value.value.End? {
        ended := ended + 1;
        currentHunk := currentHunk + 1;
      }
      if ended == h.tableSize {
        return Ok(Read(Parsed(h, records, true), cursor));
      }
      if |records| > MAX_HEADERS {
        return Err(TooManyRecords);
      }
    }
    return Err(MissingEnd);
  }

  method ParseHunk(data: seq<byte>) returns (r: Result<Read<Parsed>, Error>)
    ensures r == Parse(data)
  {
    hide Names, Table, Records;
    var names := ReadNames(data);
    if names.Err? {
      return Err(names.error);
    }
    var header := ReadTable(data, names.value.next, names.value.value);
    if header.Err? {
      return Err(header.error);
    }
    r := ReadRecords(data, header.value.next, header.value.value);
  }

  // A parse reads only what it consumes.

  /** Both inputs have these first `k` bytes. */
  predicate Agree(a: seq<byte>, b: seq<byte>, k: nat) {
    k <= |a| && k <= |b| && a[..k] == b[..k]
  }

  lemma SameWord(a: seq<byte>, b: seq<byte>, k: nat, pos: nat)
    requires Agree(a, b, k) && pos + 4 <= k
    ensures Be32(a, pos) == Be32(b, pos)
  {
    assert forall i | pos <= i < pos + 4 :: a[i] == a[..k][i] == b[i];
  }

  lemma SameSlice(a: seq<byte>, b: seq<byte>, k: nat, lo: nat, hi: nat)
    requires Agree(a, b, k) && lo <= hi <= k
    ensures a[lo..hi] == b[lo..hi]
  {
    assert a[lo..hi] == a[..k][lo..hi] && b[lo..hi] == b[..k][lo..hi];
  }

  lemma {:induction false} SameWords(a: seq<byte>, b: seq<byte>, k: nat, pos: nat, count: nat)
    requires Agree(a, b, k) && pos + 4 * count <= k
    ensures Words(a, pos, count) == Words(b, pos, count)
  {
    if count > 0 {
      SameWords(a, b, k, pos, count - 1);
      SameWord(a, b, k, pos + 4 * (count - 1));
    }
  }

  lemma {:induction false} NamesStable(a: seq<byte>, b: seq<byte>, k: nat, pos: nat, names: seq<seq<byte>>)
    requires Agree(a, b, k) && Names(a, pos, names).Ok? && Names(a, pos, names).value.next <= k
    ensures Names(b, pos, names) == Names(a, pos, names)
    decreases |a| - pos
  {
    hide Be32, TrimZeros;
    SameWord(a, b, k, pos);
    var longs := Be32(a, pos);
    if longs != 0 {
      var end := pos + 4 + 4 * longs;
      assert end <= Names(a, pos, names).value.next;
      SameSlice(a, b, k, pos + 4, end);
      NamesStable(a, b, k, end, names + [TrimZeros(a[pos + 4..end])]);
    }
  }

  lemma TableStable(a: seq<byte>, b: seq<byte>, k: nat, pos: nat, names: seq<seq<byte>>)
    requires Agree(a, b, k) && Table(a, pos, names).Ok? && Table(a, pos, names).value.next <= k
    ensures Table(b, pos, names) == Table(a, pos, names)
  {
    hide Words, Declares, Be32;
    SameWord(a, b, k, pos);
    SameWord(a, b, k, pos + 4);
    SameWord(a, b, k, pos + 8);
    SameWords(a, b, k, pos + 12, Be32(a, pos));
  }

  lemma {:induction false} GroupsStable(a: seq<byte>, b: seq<byte>, k: nat, pos: nat, groups: seq<Group>)
    requires Agree(a, b, k) && Groups(a, pos, groups).Ok? && Groups(a, pos, groups).value.next <= k
    ensures Groups(b, pos, groups) == Groups(a, pos, groups)
    decreases |a| - pos
  {
    hide Words, Be32;
    SameWord(a, b, k, pos);
    var count := Be32(a, pos);
    if count != 0 {
      var end := pos + 8 + 4 * count;
      assert end <= Groups(a, pos, groups).value.next;
      SameWord(a, b, k, pos + 4);
      SameWords(a, b, k, pos + 8, count);
      GroupsStable(a, b, k, end, groups + [Group(Be32(a, pos + 4), Words(a, pos + 8, count))]);
    }
  }

  lemma {:induction false} SymbolsStable(a: seq<byte>, b: seq<byte>, k: nat, pos: nat, symbols: seq<Symbol>)
    requires Agree(a, b, k) && SymbolList(a, pos, symbols).Ok? && SymbolList(a, pos, symbols).value.next <= k
    ensures SymbolList(b, pos, symbols) == SymbolList(a, pos, symbols)
    decreases |a| - pos
  {
    hide Be32, TrimZeros;
    SameWord(a, b, k, pos);
    var longs := Be32(a, pos);
    if longs != 0 {
      var end := pos + 4 + 4 * longs;
      assert end + 4 <= SymbolList(a, pos, symbols).value.next;
      SameSlice(a, b, k, pos + 4, end);
      SameWord(a, b, k, end);
      SymbolsStable(a, b, k, end + 4, symbols + [Symbol(TrimZeros(a[pos + 4..end]), Be32(a, end))]);
    }
  }

  lemma BodyStable(a: seq<byte>, b: seq<byte>, k: nat, pos: nat, kind: nat)
    requires Agree(a, b, k) && pos <= k && ReadBody(a, pos, kind).Ok? && ReadBody(a, pos, kind).value.next <= k
    ensures ReadBody(b, pos, kind) == ReadBody(a, pos, kind)
  {
    hide Groups, SymbolList;
    if IsSized(kind) {
      SameWord(a, b, k, pos);
    } else if IsRelocation(kind) {
      GroupsStable(a, b, k, pos, []);
    } else if kind == 0x3F0 {
      SymbolsStable(a, b, k, pos, []);
    }
  }

  lemma RecordStable(a: seq<byte>, b: seq<byte>, k: nat, pos: nat, hunk: nat)
    requires Agree(a, b, k) && ReadRecord(a, pos, hunk).Ok? && ReadRecord(a, pos, hunk).value.next <= k
    ensures ReadRecord(b, pos, hunk) == ReadRecord(a, pos, hunk)
  {
    hide ReadBody;
    SameWord(a, b, k, pos);
    BodyStable(a, b, k, pos + 4, Be32(a, pos) % 0x4000_0000);
  }

  lemma {:induction false} RecordsStable(a: seq<byte>, b: seq<byte>, k: nat, pos: nat, h: Header, records: seq<Record>,
                                         ended: nat)
    requires Agree(a, b, k) && ended < h.tableSize
    requires Records(a, pos, h, records, ended).Ok? && Records(a, pos, h, records, ended).value.next <= k
    ensures Records(b, pos, h, records, ended) == Records(a, pos, h, records, ended)
    decreases |a| - pos
  {
    hide ReadRecord;
    var read := ReadRecord(a, pos, h.first + ended).value;
    assert read.next <= Records(a, pos, h, records, ended).value.next;
    RecordStable(a, b, k, pos, h.first + ended);
    var more := records + [read.value];
    var over := if read.value.body.End? then ended + 1 else ended;
    if !read.value.body.Unsupported? && over < h.tableSize {
      RecordsStable(a, b, k, read.next, h, more, over);
    }
  }

  /** Prefix-stable: any input that shares the consumed bytes gives the same result. */
  lemma PrefixStable(a: seq<byte>, b: seq<byte>)
    ensures Parse(a).Ok? && Agree(a, b, Parse(a).value.next) ==> Parse(b) == Parse(a)
  {
    hide Names, Table, Records, Agree;
    if Parse(a).Ok? && Agree(a, b, Parse(a).value.next) {
      var k := Parse(a).value.next;
      var names := Names(a, 4, []).value;
      var h := Table(a, names.next, names.value).value;
      NamesStable(a, b, k, 4, []);
      TableStable(a, b, k, names.next, names.value);
      RecordsStable(a, b, k, h.next, h.value, [], 0);
    }
  }

  /** Prefix-free: every strict prefix of the consumed bytes raises. */
  lemma PrefixFree(data: seq<byte>, n: nat)
    ensures Parse(data).Ok? && n < Parse(data).value.next ==> Parse(data[..n]).Err?
  {
    hide Parse;
    if Parse(data).Ok? && n < Parse(data).value.next && Parse(data[..n]).Ok? {
      var m := Parse(data[..n]).value.next;
      assert data[..n][..m] == data[..m];
      PrefixStable(data[..n], data);
    }
  }

  // What a result says.

  function Ends(records: seq<Record>): nat {
    if records == [] then 0
    else Ends(records[..|records| - 1]) + if records[|records| - 1].body.End? then 1 else 0
  }

  /** Each record belongs to the hunk numbered `first` plus the ENDs before it, and only the last can be unsupported. */
  predicate Numbered(records: seq<Record>, first: nat) {
    records == [] ||
    var before, last := records[..|records| - 1], records[|records| - 1];
    Numbered(before, first) && last.hunk == first + Ends(before) && (before != [] ==> !before[|before| - 1].body.Unsupported?)
  }

  lemma NumberNext(records: seq<Record>, next: Record, first: nat)
    requires Numbered(records, first) && next.hunk == first + Ends(records)
    requires records != [] ==> !records[|records| - 1].body.Unsupported?
    ensures Numbered(records + [next], first)
    ensures Ends(records + [next]) == Ends(records) + if next.body.End? then 1 else 0
  {
    assert (records + [next])[..|records|] == records;
  }

  lemma {:induction false} NumberedAt(records: seq<Record>, first: nat, i: nat)
    requires Numbered(records, first) && i < |records|
    ensures records[i].hunk == first + Ends(records[..i])
    ensures records[i].body.Unsupported? ==> i == |records| - 1
  {
    var before := records[..|records| - 1];
    if i < |before| {
      NumberedAt(before, first, i);
      assert before[..i] == records[..i];
    }
  }

  ghost predicate WellFormed(p: Parsed) {
    var n := |p.records|;
    && n > 0 && Numbered(p.records, p.header.first)
    && (p.complete ==> Ends(p.records) == p.header.tableSize && p.records[n - 1].body.End?)
    && (!p.complete ==> Ends(p.records) < p.header.tableSize && p.records[n - 1].body.Unsupported?)
    && p.header.first <= p.records[n - 1].hunk <= p.header.last
  }

  lemma Indexed(records: seq<Record>, first: nat)
    requires Numbered(records, first)
    ensures forall i | 0 <= i < |records| :: records[i].hunk == first + Ends(records[..i])
    ensures forall i | 0 <= i < |records| - 1 :: !records[i].body.Unsupported?
  {
    hide Numbered, Ends;
    forall i | 0 <= i < |records|
      ensures records[i].hunk == first + Ends(records[..i]) && (records[i].body.Unsupported? ==> i == |records| - 1)
    {
      NumberedAt(records, first, i);
    }
  }

  lemma {:induction false} RecordsWellFormed(data: seq<byte>, pos: nat, h: Header, records: seq<Record>, ended: nat)
    requires h.last + 1 == h.first + h.tableSize
    requires ended < h.tableSize && ended == Ends(records) && Numbered(records, h.first)
    requires records != [] ==> !records[|records| - 1].body.Unsupported?
    requires Records(data, pos, h, records, ended).Ok?
    ensures WellFormed(Records(data, pos, h, records, ended).value.value)
    ensures Records(data, pos, h, records, ended).value.value.header == h
    decreases |data| - pos
  {
    hide ReadBody, Numbered, Ends, Be32;
    var read := ReadRecord(data, pos, h.first + ended).value;
    var more := records + [read.value];
    NumberNext(records, read.value, h.first);
    var over := if read.value.body.End? then ended + 1 else ended;
    if !read.value.body.Unsupported? && over < h.tableSize {
      RecordsWellFormed(data, read.next, h, more, over);
    }
  }

  /**
   A result without errors has exactly `table_size` END records and ends with one; a result with the error ends with
   the unsupported record; and each record's hunk index is `first` plus the ENDs before it.
   */
  lemma ResultsAreNumbered(data: seq<byte>)
    ensures Parse(data).Ok? ==>
              var p := Parse(data).value.value;
            && WellFormed(p)
            && (forall i | 0 <= i < |p.records| :: p.records[i].hunk == p.header.first + Ends(p.records[..i]))
            && (forall i | 0 <= i < |p.records| - 1 :: !p.records[i].body.Unsupported?)
  {
    hide Names, Table, Records, Numbered, Ends;
    if Parse(data).Ok? {
      var names := Names(data, 4, []).value;
      var h := Table(data, names.next, names.value).value;
      assert Ends([]) == 0 && Numbered([], h.value.first) by { NoEnds(); }
      RecordsWellFormed(data, h.next, h.value, [], 0);
      Indexed(Parse(data).value.value.records, h.value.first);
    }
  }

  lemma NoEnds()
    ensures Ends([]) == 0 && forall first: nat :: Numbered([], first)
  {
  }
}

/** A writer for HUNK files, and the proof that the parser reads back exactly what it writes. */
module HunkPrinter {
  import opened Bytes
  import opened Hunk
  import opened Writing

  /** A name as it is stored: whole words, padded with zeros. */
  datatype StoredSymbol = StoredSymbol(name: seq<byte>, value: nat)

  datatype Content = Payload(bytes: seq<byte>) | Bss(longs: nat) | Groups(groups: seq<Group>)
                   | SymbolTable(symbols: seq<StoredSymbol>) | Over | Unknown

  datatype Part = Part(kind: nat, flags: nat, content: Content)

  datatype Image = Image(names: seq<seq<byte>>, first: nat, declared: seq<Declared>, parts: seq<Part>)

  // ----- writing -----

  predicate AllWords(words: seq<nat>) {
    words == [] || (AllWords(words[..|words| - 1]) && words[|words| - 1] < WORD)
  }

  function WordBytes(words: seq<nat>): (r: seq<byte>)
    requires AllWords(words)
    ensures |r| == 4 * |words|
  {
    if words == [] then [] else WordBytes(words[..|words| - 1]) + Word(words[|words| - 1])
  }

  predicate IsName(name: seq<byte>) {
    name != [] && |name| % 4 == 0 && |name| <= 4096
  }

  predicate AreNames(names: seq<seq<byte>>) {
    names == [] || (IsName(names[0]) && AreNames(names[1..]))
  }

  function NameBytes(names: seq<seq<byte>>): seq<byte>
    requires AreNames(names)
  {
    if names == [] then Word(0) else Word(|names[0]| / 4) + (names[0] + NameBytes(names[1..]))
  }

  predicate IsGroup(g: Group) {
    g.target < WORD && 0 < |g.offsets| <= 100_000 && AllWords(g.offsets)
  }

  predicate AreGroups(groups: seq<Group>) {
    groups == [] || (IsGroup(groups[0]) && AreGroups(groups[1..]))
  }

  function GroupBytes(groups: seq<Group>): seq<byte>
    requires AreGroups(groups)
  {
    if groups == [] then Word(0) else
      Word(|groups[0].offsets|) + (Word(groups[0].target) + (WordBytes(groups[0].offsets) + GroupBytes(groups[1..])))
  }

  predicate AreSymbols(symbols: seq<StoredSymbol>) {
    symbols == [] || (IsName(symbols[0].name) && symbols[0].value < WORD && AreSymbols(symbols[1..]))
  }

  function SymbolBytes(symbols: seq<StoredSymbol>): seq<byte>
    requires AreSymbols(symbols)
  {
    if symbols == [] then Word(0) else
      Word(|symbols[0].name| / 4) + (symbols[0].name + (Word(symbols[0].value) + SymbolBytes(symbols[1..])))
  }

  /** The content fits the record type. */
  predicate IsPart(p: Part) {
    && p.kind < 0x4000_0000 && p.flags < 4
    && match p.content
       case Payload(bytes) => p.kind in {0x3E9, 0x3EA, 0x3F1} && |bytes| % 4 == 0 && |bytes| / 4 < WORD
       case Bss(longs) => p.kind == 0x3EB && longs < WORD
       case Groups(groups) => p.kind in {0x3EC, 0x3ED, 0x3EE, 0x3F7, 0x3F8, 0x3F9, 0x3FC, 0x3FD} && AreGroups(groups)
       case SymbolTable(symbols) => p.kind == 0x3F0 && AreSymbols(symbols) && |symbols| <= 100_000
       case Over => p.kind == 0x3F2
       case Unknown => !(0x3E9 <= p.kind <= 0x3EE || 0x3F0 <= p.kind <= 0x3F2 || 0x3F7 <= p.kind <= 0x3F9 || 0x3FC <= p.kind <= 0x3FD)
  }

  function ContentBytes(p: Part): seq<byte>
    requires IsPart(p)
  {
    match p.content
    case Payload(bytes) => Word(|bytes| / 4) + bytes
    case Bss(longs) => Word(longs)
    case Groups(groups) => GroupBytes(groups)
    case SymbolTable(symbols) => SymbolBytes(symbols)
    case Over => []
    case Unknown => []
  }

  /** Only the last record can be of a type the parser does not know. */
  predicate AreParts(parts: seq<Part>) {
    parts == [] || (IsPart(parts[0]) && (parts[0].content.Unknown? ==> |parts| == 1) && AreParts(parts[1..]))
  }

  function PartBytes(parts: seq<Part>): seq<byte>
    requires AreParts(parts)
  {
    if parts == [] then [] else
      Word(parts[0].flags * 0x4000_0000 + parts[0].kind) + (ContentBytes(parts[0]) + PartBytes(parts[1..]))
  }

  predicate AreDeclared(declared: seq<Declared>) {
    declared == [] ||
    (AreDeclared(declared[..|declared| - 1]) && declared[|declared| - 1].longs < 0x4000_0000 && declared[|declared| - 1].flags < 4)
  }

  function DeclaredWords(declared: seq<Declared>): (r: seq<nat>)
    requires AreDeclared(declared)
    ensures |r| == |declared| && AllWords(r) && Declares(r) == declared
  {
    hide Declare;
    if declared == [] then [] else
      var before, last := declared[..|declared| - 1], declared[|declared| - 1];
      DeclareBack(last);
      var r := DeclaredWords(before) + [last.flags * 0x4000_0000 + last.longs];
      assert r[..|r| - 1] == DeclaredWords(before);
      r
  }

  lemma DeclareBack(d: Declared)
    requires d.longs < 0x4000_0000 && d.flags < 4
    ensures d.flags * 0x4000_0000 + d.longs < WORD && Declare(d.flags * 0x4000_0000 + d.longs) == d
  {
  }

  function Overs(parts: seq<Part>): nat {
    if parts == [] then 0 else (if parts[0].content.Over? then 1 else 0) + Overs(parts[1..])
  }

  /** The records end with the last hunk's END, or before it with one of an unknown type. */
  predicate Finishes(parts: seq<Part>, hunks: nat) {
    && parts != []
    && match parts[|parts| - 1].content
       case Over => Overs(parts) == hunks
       case Unknown => Overs(parts) < hunks
       case _ => false
  }

  /** A file the parser can read to an end, with no more records than it takes. */
  predicate IsImage(i: Image) {
    && AreNames(i.names) && AreDeclared(i.declared) && AreParts(i.parts)
    && 0 < |i.declared| <= 1024 && i.first + |i.declared| <= WORD
    && Finishes(i.parts, |i.declared|) && |i.parts| <= 4097
  }

  /** What follows the magic word. */
  function AfterMagic(i: Image): seq<byte>
    requires IsImage(i)
  {
    NameBytes(i.names) + (Word(|i.declared|) + (Word(i.first) + (Word(i.first + |i.declared| - 1)
      + (WordBytes(DeclaredWords(i.declared)) + PartBytes(i.parts)))))
  }

  function ImageBytes(i: Image): seq<byte>
    requires IsImage(i)
  {
    Word(0x3F3) + AfterMagic(i)
  }

  // ----- what the parser should report -----

  function Trimmed(names: seq<seq<byte>>): seq<seq<byte>> {
    if names == [] then [] else [TrimZeros(names[0])] + Trimmed(names[1..])
  }

  function SymbolsOf(symbols: seq<StoredSymbol>): seq<Symbol> {
    if symbols == [] then [] else [Symbol(TrimZeros(symbols[0].name), symbols[0].value)] + SymbolsOf(symbols[1..])
  }

  function BodyOf(p: Part): Body {
    match p.content
    case Payload(bytes) => Sized(|bytes| / 4)
    case Bss(longs) => Sized(longs)
    case Groups(groups) => Relocations(groups)
    case SymbolTable(symbols) => Symbols(SymbolsOf(symbols))
    case Over => End
    case Unknown => Unsupported
  }

  /** The records, the first of them in hunk `hunk`. */
  function RecordsOf(parts: seq<Part>, hunk: nat): seq<Record> {
    if parts == [] then [] else
      [Record(parts[0].kind, parts[0].flags, hunk, BodyOf(parts[0]))]
      + RecordsOf(parts[1..], if parts[0].content.Over? then hunk + 1 else hunk)
  }

  function ParsedOf(i: Image): Parsed
    requires IsImage(i)
  {
    Parsed(Header(Trimmed(i.names), |i.declared|, i.first, i.first + |i.declared| - 1, i.declared), RecordsOf(i.parts, i.first),
           i.parts[|i.parts| - 1].content.Over?)
  }

  // ----- reading back -----

  lemma {:induction false} WordsBack(data: seq<byte>, pos: nat, words: seq<nat>)
    requires AllWords(words) && At(data, pos, WordBytes(words))
    ensures Has(data, pos, 4 * |words|) && Words(data, pos, |words|) == words
    decreases |words|
  {
    hide Word, Be32;
    if words != [] {
      var before, last := words[..|words| - 1], words[|words| - 1];
      AtConcat(data, pos, WordBytes(before), Word(last));
      WordsBack(data, pos, before);
      WordAt(data, pos + 4 * |before|, last);
    }
  }

  lemma {:induction false} NamesBack(data: seq<byte>, pos: nat, names: seq<seq<byte>>, acc: seq<seq<byte>>)
    requires AreNames(names) && At(data, pos, NameBytes(names))
    ensures Names(data, pos, acc) == Ok(Hunk.Read(acc + Trimmed(names), pos + |NameBytes(names)|))
    decreases |names|
  {
    hide Word, Be32, At, TrimZeros;
    if names == [] {
      NothingAt(data, pos);
      assert acc + Trimmed(names) == acc;
    } else {
      var name, rest := names[0], NameBytes(names[1..]);
      WordThen(data, pos, |name| / 4, name + rest);
      AtConcat(data, pos + 4, name, rest);
      AtSlice(data, pos + 4, name);
      NamesBack(data, pos + 4 + |name|, names[1..], acc + [TrimZeros(name)]);
      assert acc + [TrimZeros(name)] + Trimmed(names[1..]) == acc + Trimmed(names);
    }
  }

  lemma {:induction false} GroupsBack(data: seq<byte>, pos: nat, groups: seq<Group>, acc: seq<Group>)
    requires AreGroups(groups) && At(data, pos, GroupBytes(groups))
    ensures Hunk.Groups(data, pos, acc) == Ok(Hunk.Read(acc + groups, pos + |GroupBytes(groups)|))
    decreases |groups|
  {
    hide Word, Be32, At, Words, AllWords, WordBytes;
    if groups == [] {
      NothingAt(data, pos);
      assert acc + groups == acc;
    } else {
      var g, rest := groups[0], GroupBytes(groups[1..]);
      WordThen(data, pos, |g.offsets|, Word(g.target) + (WordBytes(g.offsets) + rest));
      WordThen(data, pos + 4, g.target, WordBytes(g.offsets) + rest);
      AtConcat(data, pos + 8, WordBytes(g.offsets), rest);
      WordsBack(data, pos + 8, g.offsets);
      GroupsBack(data, pos + 8 + 4 * |g.offsets|, groups[1..], acc + [g]);
      assert acc + [g] + groups[1..] == acc + groups;
    }
  }

  lemma SymbolAt(data: seq<byte>, pos: nat, s: StoredSymbol, rest: seq<byte>)
    requires IsName(s.name) && s.value < WORD
    requires At(data, pos, Word(|s.name| / 4) + (s.name + (Word(s.value) + rest)))
    ensures var longs, end := |s.name| / 4, pos + 4 + |s.name|;
            && 0 < longs <= MAX_NAME / 4 && 4 * longs == |s.name|
            && Has(data, pos, 4) && Be32(data, pos) == longs && Has(data, pos + 4, 4 * longs + 4)
            && data[pos + 4..end] == s.name && Be32(data, end) == s.value && At(data, end + 4, rest)
  {
    hide Word, Be32, At;
    var end := pos + 4 + |s.name|;
    WordThen(data, pos, |s.name| / 4, s.name + (Word(s.value) + rest));
    AtConcat(data, pos + 4, s.name, Word(s.value) + rest);
    AtSlice(data, pos + 4, s.name);
    WordThen(data, end, s.value, rest);
  }

  lemma NothingAt(data: seq<byte>, pos: nat)
    requires At(data, pos, Word(0))
    ensures Has(data, pos, 4) && Be32(data, pos) == 0
  {
    hide Word, At, Be32;
    WordAt(data, pos, 0);
  }

  /** The first symbol of a table, and the rest of it. */
  lemma SymbolTableAt(data: seq<byte>, pos: nat, symbols: seq<StoredSymbol>, acc: seq<Symbol>)
    requires AreSymbols(symbols) && symbols != [] && At(data, pos, SymbolBytes(symbols)) && |acc| < MAX_SYMBOLS
    ensures var s, next := symbols[0], pos + 8 + |symbols[0].name|;
            && SymbolList(data, pos, acc) == SymbolList(data, next, acc + [Symbol(TrimZeros(s.name), s.value)])
            && AreSymbols(symbols[1..]) && At(data, next, SymbolBytes(symbols[1..]))
            && |SymbolBytes(symbols)| == 8 + |s.name| + |SymbolBytes(symbols[1..])|
  {
    hide Word, Be32, At, TrimZeros, Has, IsName;
    SymbolAt(data, pos, symbols[0], SymbolBytes(symbols[1..]));
  }

  lemma NoSymbols(data: seq<byte>, pos: nat, acc: seq<Symbol>)
    requires At(data, pos, SymbolBytes([]))
    ensures SymbolList(data, pos, acc) == Ok(Hunk.Read(acc, pos + 4)) && |SymbolBytes([])| == 4
  {
    hide At, Be32;
    NothingAt(data, pos);
  }

  lemma SymbolNext(acc: seq<Symbol>, symbols: seq<StoredSymbol>)
    requires symbols != []
    ensures acc + [Symbol(TrimZeros(symbols[0].name), symbols[0].value)] + SymbolsOf(symbols[1..]) == acc + SymbolsOf(symbols)
  {
    hide TrimZeros;
  }

  lemma {:induction false} SymbolsBack(data: seq<byte>, pos: nat, symbols: seq<StoredSymbol>, acc: seq<Symbol>)
    requires AreSymbols(symbols) && At(data, pos, SymbolBytes(symbols)) && |acc| + |symbols| <= MAX_SYMBOLS
    ensures SymbolList(data, pos, acc) == Ok(Hunk.Read(acc + SymbolsOf(symbols), pos + |SymbolBytes(symbols)|))
    decreases |symbols|
  {
    hide Word, Be32, At, TrimZeros, Has, AreSymbols, SymbolBytes, SymbolList;
    if symbols == [] {
      NoSymbols(data, pos, acc);
      assert acc + SymbolsOf(symbols) == acc;
    } else {
      hide SymbolsOf;
      var read := Symbol(TrimZeros(symbols[0].name), symbols[0].value);
      SymbolTableAt(data, pos, symbols, acc);
      SymbolsBack(data, pos + 8 + |symbols[0].name|, symbols[1..], acc + [read]);
      SymbolNext(acc, symbols);
    }
  }

  lemma ContentBack(data: seq<byte>, pos: nat, p: Part)
    requires IsPart(p) && At(data, pos, ContentBytes(p)) && pos <= |data|
    ensures ReadBody(data, pos, p.kind) == Ok(Hunk.Read(BodyOf(p), pos + |ContentBytes(p)|))
  {
    hide Word, Be32, At, Hunk.Groups, SymbolList, GroupBytes, SymbolBytes, SymbolsOf;
    match p.content
    case Payload(bytes) =>
      WordThen(data, pos, |bytes| / 4, bytes);
      AtSlice(data, pos + 4, bytes);
    case Bss(longs) =>
      assert Word(longs) == Word(longs) + [];
      WordThen(data, pos, longs, []);
    case Groups(groups) =>
      GroupsBack(data, pos, groups, []);
      assert [] + groups == groups;
    case SymbolTable(symbols) =>
      SymbolsBack(data, pos, symbols, []);
      assert [] + SymbolsOf(symbols) == SymbolsOf(symbols);
    case Over =>
    case Unknown =>
  }

  lemma TypeWord(p: Part)
    requires IsPart(p)
    ensures var word := p.flags * 0x4000_0000 + p.kind;
            word < WORD && word % 0x4000_0000 == p.kind && word / 0x4000_0000 == p.flags
  {
  }

  lemma PartBack(data: seq<byte>, pos: nat, p: Part, rest: seq<byte>, hunk: nat)
    requires IsPart(p) && At(data, pos, Word(p.flags * 0x4000_0000 + p.kind) + (ContentBytes(p) + rest))
    ensures var next := pos + 4 + |ContentBytes(p)|;
            ReadRecord(data, pos, hunk) == Ok(Hunk.Read(Record(p.kind, p.flags, hunk, BodyOf(p)), next)) && At(data, next, rest)
  {
    hide Word, Be32, At, ReadBody, ContentBytes, BodyOf, IsPart;
    TypeWord(p);
    WordThen(data, pos, p.flags * 0x4000_0000 + p.kind, ContentBytes(p) + rest);
    AtConcat(data, pos + 4, ContentBytes(p), rest);
    ContentBack(data, pos + 4, p);
  }

  /** One turn of the record loop. */
  lemma RecordsStep(data: seq<byte>, pos: nat, h: Header, acc: seq<Record>, ended: nat, record: Record, next: nat)
    requires ended < h.tableSize && pos < |data| && ReadRecord(data, pos, h.first + ended) == Ok(Hunk.Read(record, next))
    ensures var more, over := acc + [record], if record.body.End? then ended + 1 else ended;
            Records(data, pos, h, acc, ended) ==
              if record.body.Unsupported? then Ok(Hunk.Read(Parsed(h, more, false), next))
              else if over == h.tableSize then Ok(Hunk.Read(Parsed(h, more, true), next))
              else if |more| > MAX_HEADERS then Err(TooManyRecords)
              else Records(data, next, h, more, over)
  {
    hide ReadRecord;
  }

  lemma BodyKinds(p: Part)
    ensures (BodyOf(p).End? <==> p.content.Over?) && (BodyOf(p).Unsupported? <==> p.content.Unknown?)
  {
  }

  lemma PartsSplit(parts: seq<Part>, hunk: nat)
    requires AreParts(parts) && parts != []
    ensures IsPart(parts[0]) && AreParts(parts[1..]) && (parts[0].content.Unknown? ==> |parts| == 1)
    ensures parts[0].flags * 0x4000_0000 + parts[0].kind < WORD
    ensures PartBytes(parts) == Word(parts[0].flags * 0x4000_0000 + parts[0].kind) + (ContentBytes(parts[0]) + PartBytes(parts[1..]))
    ensures RecordsOf(parts, hunk)
         == [Record(parts[0].kind, parts[0].flags, hunk, BodyOf(parts[0]))]
            + RecordsOf(parts[1..], if parts[0].content.Over? then hunk + 1 else hunk)
  {
    hide Word, ContentBytes, BodyOf;
  }

  /** A last record, and the end of the hunks or of what is known. */
  lemma LastPart(parts: seq<Part>, hunks: nat)
    requires |parts| == 1 && hunks > 0 && Finishes(parts, hunks)
    ensures (parts[0].content.Over? && hunks == 1) || parts[0].content.Unknown?
  {
    assert Overs(parts[1..]) == 0;
  }

  /** The first of several records. */
  lemma FirstBack(data: seq<byte>, pos: nat, h: Header, acc: seq<Record>, ended: nat, parts: seq<Part>)
    requires AreParts(parts) && parts != [] && At(data, pos, PartBytes(parts)) && ended < h.tableSize
    ensures IsPart(parts[0]) && AreParts(parts[1..]) && (parts[0].content.Unknown? ==> |parts| == 1)
    ensures var p, hunk, next := parts[0], h.first + ended, pos + 4 + |ContentBytes(parts[0])|;
            var more, over := acc + [Record(p.kind, p.flags, hunk, BodyOf(p))], if p.content.Over? then ended + 1 else ended;
            && At(data, next, PartBytes(parts[1..])) && |PartBytes(parts)| == next - pos + |PartBytes(parts[1..])|
            && Records(data, pos, h, acc, ended) ==
                 if p.content.Unknown? then Ok(Hunk.Read(Parsed(h, more, false), next))
                 else if over == h.tableSize then Ok(Hunk.Read(Parsed(h, more, true), next))
                 else if |more| > MAX_HEADERS then Err(TooManyRecords)
                 else Records(data, next, h, more, over)
  {
    hide Word, At, ReadRecord, ContentBytes, IsPart, BodyOf, Records, AreParts, PartBytes, RecordsOf;
    var p, hunk := parts[0], h.first + ended;
    PartsSplit(parts, hunk);
    PartBack(data, pos, p, PartBytes(parts[1..]), hunk);
    BodyKinds(p);
    RecordIsThere(data, pos, hunk);
    RecordsStep(data, pos, h, acc, ended, Record(p.kind, p.flags, hunk, BodyOf(p)), pos + 4 + |ContentBytes(p)|);
  }

  lemma RecordsNext(parts: seq<Part>, acc: seq<Record>, hunk: nat)
    requires parts != []
    ensures acc + [Record(parts[0].kind, parts[0].flags, hunk, BodyOf(parts[0]))]
            + RecordsOf(parts[1..], if parts[0].content.Over? then hunk + 1 else hunk) == acc + RecordsOf(parts, hunk)
  {
    hide BodyOf;
  }

  lemma {:induction false} PartsBack(data: seq<byte>, pos: nat, h: Header, acc: seq<Record>, ended: nat, parts: seq<Part>)
    requires AreParts(parts) && At(data, pos, PartBytes(parts))
    requires parts != [] && ended < h.tableSize && Finishes(parts, h.tableSize - ended) && |acc| + |parts| <= MAX_HEADERS + 1
    ensures Records(data, pos, h, acc, ended)
         == Ok(Hunk.Read(Parsed(h, acc + RecordsOf(parts, h.first + ended), parts[|parts| - 1].content.Over?), pos + |PartBytes(parts)|))
    decreases |parts|
  {
    hide At, ContentBytes, IsPart, BodyOf, Records, AreParts, PartBytes, RecordsOf, Finishes, Overs;
    var p, hunk, over := parts[0], h.first + ended, if parts[0].content.Over? then ended + 1 else ended;
    FirstBack(data, pos, h, acc, ended, parts);
    RecordsNext(parts, acc, hunk);
    var more := acc + [Record(p.kind, p.flags, hunk, BodyOf(p))];
    if |parts| == 1 {
      LastPart(parts, h.tableSize - ended);
      NoParts(parts[1..], h.first + over);
      assert more + [] == more;
    } else {
      StillOpen(parts, h.tableSize - ended);
      PartsBack(data, pos + 4 + |ContentBytes(p)|, h, more, over, parts[1..]);
    }
  }

  lemma NoParts(parts: seq<Part>, hunk: nat)
    requires parts == []
    ensures AreParts(parts) && PartBytes(parts) == [] && RecordsOf(parts, hunk) == []
  {
  }

  lemma RecordIsThere(data: seq<byte>, pos: nat, hunk: nat)
    ensures ReadRecord(data, pos, hunk).Ok? ==> pos < |data|
  {
  }

  /** While records follow, hunks do. */
  lemma StillOpen(parts: seq<Part>, hunks: nat)
    requires |parts| > 1 && Finishes(parts, hunks)
    ensures var ends := if parts[0].content.Over? then 1 else 0; ends < hunks && Finishes(parts[1..], hunks - ends)
  {
    if parts[|parts| - 1].content.Over? {
      LastOver(parts[1..]);
    }
  }

  lemma {:induction false} LastOver(parts: seq<Part>)
    requires parts != [] && parts[|parts| - 1].content.Over?
    ensures Overs(parts) > 0
  {
    if |parts| > 1 {
      LastOver(parts[1..]);
    }
  }

  lemma TableWords(data: seq<byte>, pos: nat, n: nat, first: nat, last: nat, words: seq<nat>, rest: seq<byte>)
    requires n < WORD && first < WORD && last < WORD && AllWords(words)
    requires At(data, pos, Word(n) + (Word(first) + (Word(last) + (WordBytes(words) + rest))))
    ensures Has(data, pos, 12) && Be32(data, pos) == n && Be32(data, pos + 4) == first && Be32(data, pos + 8) == last
    ensures Has(data, pos + 12, 4 * |words|) && Words(data, pos + 12, |words|) == words
    ensures At(data, pos + 12 + 4 * |words|, rest)
  {
    hide Word, Be32, At, Words, AllWords, WordBytes;
    WordThen(data, pos, n, Word(first) + (Word(last) + (WordBytes(words) + rest)));
    WordThen(data, pos + 4, first, Word(last) + (WordBytes(words) + rest));
    WordThen(data, pos + 8, last, WordBytes(words) + rest);
    AtConcat(data, pos + 12, WordBytes(words), rest);
    WordsBack(data, pos + 12, words);
  }

  /** The header table, from its three words and its size words. */
  lemma TableIs(data: seq<byte>, pos: nat, names: seq<seq<byte>>, n: nat, first: nat, words: seq<nat>)
    requires 0 < n <= MAX_SECTIONS && |words| == n
    requires Has(data, pos, 12) && Be32(data, pos) == n && Be32(data, pos + 4) == first && Be32(data, pos + 8) == first + n - 1
    requires Has(data, pos + 12, 4 * n) && Words(data, pos + 12, n) == words
    ensures Table(data, pos, names) == Ok(Hunk.Read(Header(names, n, first, first + n - 1, Declares(words)), pos + 12 + 4 * n))
  {
    hide Be32, Words, Declares;
  }

  /** The parser, which takes the magic word as read, reads back a file wherever it stands. */
  lemma ImageBack(data: seq<byte>, i: Image)
    requires IsImage(i) && At(data, 4, AfterMagic(i))
    ensures Parse(data) == Ok(Hunk.Read(ParsedOf(i), 4 + |AfterMagic(i)|))
  {
    hide Word, At, Has, Be32, Words, Names, Table, Records, NameBytes, PartBytes, WordBytes, DeclaredWords,
         Declares, AllWords, AreDeclared, AreNames, AreParts, Trimmed, RecordsOf, Overs, Finishes;
    var parts := PartBytes(i.parts);
    var table := Word(|i.declared|) + (Word(i.first) + (Word(i.first + |i.declared| - 1)
                 + (WordBytes(DeclaredWords(i.declared)) + parts)));
    AtConcat(data, 4, NameBytes(i.names), table);
    NamesBack(data, 4, i.names, []);
    assert [] + Trimmed(i.names) == Trimmed(i.names);
    var start := 4 + |NameBytes(i.names)|;
    var words := DeclaredWords(i.declared);
    TableWords(data, start, |i.declared|, i.first, i.first + |i.declared| - 1, words, parts);
    TableIs(data, start, Trimmed(i.names), |i.declared|, i.first, words);
    var h := Header(Trimmed(i.names), |i.declared|, i.first, i.first + |i.declared| - 1, i.declared);
    assert i.parts != [] by { SomeParts(i); }
    PartsBack(data, start + 12 + 4 * |i.declared|, h, [], 0, i.parts);
    assert [] + RecordsOf(i.parts, i.first) == RecordsOf(i.parts, i.first);
  }

  lemma SomeParts(i: Image)
    requires IsImage(i)
    ensures i.parts != []
  {
  }

  /** The parser reads back any file the writer makes, whatever follows it, and consumes exactly that file. */
  lemma RoundTrip(i: Image, after: seq<byte>)
    requires IsImage(i)
    ensures Parse(ImageBytes(i) + after) == Ok(Hunk.Read(ParsedOf(i), |ImageBytes(i)|))
  {
    hide Word, At, AfterMagic, Parse, IsImage;
    AtStart(ImageBytes(i), after);
    AtConcat(ImageBytes(i) + after, 0, Word(0x3F3), AfterMagic(i));
    ImageBack(ImageBytes(i) + after, i);
  }
}

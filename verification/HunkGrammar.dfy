/** The files the HUNK parser accepts: a parse returns exactly on the printed files, and reports what was printed. */
module HunkGrammar {
  import opened Bytes
  import opened Hunk
  import opened HunkPrinter
  import opened Writing

  lemma {:induction false} WordsFound(data: seq<byte>, pos: nat, count: nat)
    requires Has(data, pos, 4 * count)
    ensures AllWords(Words(data, pos, count)) && At(data, pos, WordBytes(Words(data, pos, count)))
  {
    hide Word, Be32;
    if count > 0 {
      var words := Words(data, pos, count);
      assert words[..count - 1] == Words(data, pos, count - 1);
      WordsFound(data, pos, count - 1);
      ReadIsWritten(data, pos + 4 * (count - 1));
      AtJoin(data, pos, WordBytes(words[..count - 1]), Word(words[count - 1]));
    }
  }

  /** A word in front of what lies behind it. */
  lemma WordBefore(data: seq<byte>, pos: nat, rest: seq<byte>)
    requires pos + 4 <= |data| && At(data, pos + 4, rest)
    ensures At(data, pos, Word(Be32(data, pos)) + rest)
  {
    hide Word, Be32;
    ReadIsWritten(data, pos);
    AtJoin(data, pos, Word(Be32(data, pos)), rest);
  }

  lemma SliceAt(data: seq<byte>, from: nat, to: nat)
    requires from <= to <= |data|
    ensures At(data, from, data[from..to])
  {
  }

  lemma {:induction false} NamesFound(data: seq<byte>, pos: nat, acc: seq<seq<byte>>) returns (names: seq<seq<byte>>)
    requires Names(data, pos, acc).Ok?
    ensures AreNames(names) && At(data, pos, NameBytes(names))
    decreases |data| - pos
  {
    hide Word, Be32, At, TrimZeros;
    var longs := Be32(data, pos);
    if longs == 0 {
      ReadIsWritten(data, pos);
      return [];
    }
    var end := pos + 4 + 4 * longs;
    var name := data[pos + 4..end];
    var rest := NamesFound(data, end, acc + [TrimZeros(name)]);
    names := [name] + rest;
    assert names[1..] == rest && |name| == 4 * longs;
    SliceAt(data, pos + 4, end);
    AtJoin(data, pos + 4, name, NameBytes(rest));
    WordBefore(data, pos, name + NameBytes(rest));
  }

  lemma {:induction false} GroupsFound(data: seq<byte>, pos: nat, acc: seq<Group>) returns (groups: seq<Group>)
    requires Hunk.Groups(data, pos, acc).Ok?
    ensures AreGroups(groups) && At(data, pos, GroupBytes(groups))
    decreases |data| - pos
  {
    hide Word, Be32, At, Words, AllWords, WordBytes;
    var count := Be32(data, pos);
    if count == 0 {
      ReadIsWritten(data, pos);
      return [];
    }
    var g := Group(Be32(data, pos + 4), Words(data, pos + 8, count));
    var rest := GroupsFound(data, pos + 8 + 4 * count, acc + [g]);
    groups := [g] + rest;
    assert groups[1..] == rest;
    WordsFound(data, pos + 8, count);
    AtJoin(data, pos + 8, WordBytes(g.offsets), GroupBytes(rest));
    WordBefore(data, pos + 4, WordBytes(g.offsets) + GroupBytes(rest));
    WordBefore(data, pos, Word(g.target) + (WordBytes(g.offsets) + GroupBytes(rest)));
  }

  lemma {:induction false} SymbolsFound(data: seq<byte>, pos: nat, acc: seq<Symbol>) returns (symbols: seq<StoredSymbol>)
    requires SymbolList(data, pos, acc).Ok? && |acc| <= MAX_SYMBOLS
    ensures AreSymbols(symbols) && At(data, pos, SymbolBytes(symbols)) && |acc| + |symbols| <= MAX_SYMBOLS
    decreases |data| - pos
  {
    hide Word, Be32, At, TrimZeros;
    var longs := Be32(data, pos);
    if longs == 0 {
      ReadIsWritten(data, pos);
      return [];
    }
    var end := pos + 4 + 4 * longs;
    var s := StoredSymbol(data[pos + 4..end], Be32(data, end));
    var rest := SymbolsFound(data, end + 4, acc + [Symbol(TrimZeros(s.name), s.value)]);
    symbols := [s] + rest;
    assert symbols[1..] == rest && |s.name| == 4 * longs;
    WordBefore(data, end, SymbolBytes(rest));
    SliceAt(data, pos + 4, end);
    AtJoin(data, pos + 4, s.name, Word(s.value) + SymbolBytes(rest));
    WordBefore(data, pos, s.name + (Word(s.value) + SymbolBytes(rest)));
  }

  lemma ContentFound(data: seq<byte>, pos: nat, kind: nat, flags: nat) returns (p: Part)
    requires pos <= |data| && ReadBody(data, pos, kind).Ok? && kind < 0x4000_0000 && flags < 4
    ensures IsPart(p) && p.kind == kind && p.flags == flags && At(data, pos, ContentBytes(p))
  {
    hide Word, Be32, At, Hunk.Groups, SymbolList, GroupBytes, SymbolBytes;
    if IsSized(kind) {
      var longs := Be32(data, pos);
      if kind == 0x3EB {
        ReadIsWritten(data, pos);
        p := Part(kind, flags, Bss(longs));
      } else {
        var bytes := data[pos + 4..pos + 4 + 4 * longs];
        assert |bytes| == 4 * longs;
        SliceAt(data, pos + 4, pos + 4 + 4 * longs);
        WordBefore(data, pos, bytes);
        p := Part(kind, flags, Payload(bytes));
      }
    } else if IsRelocation(kind) {
      var groups := GroupsFound(data, pos, []);
      p := Part(kind, flags, Content.Groups(groups));
    } else if kind == 0x3F0 {
      var symbols := SymbolsFound(data, pos, []);
      p := Part(kind, flags, SymbolTable(symbols));
    } else {
      SliceAt(data, pos, pos);
      assert data[pos..pos] == [];
      p := Part(kind, flags, if kind == 0x3F2 then Over else Unknown);
    }
  }

  lemma {:induction false} PartsFound(data: seq<byte>, pos: nat, h: Header, acc: seq<Record>,
                                      ended: nat) returns (parts: seq<Part>)
    requires ended < h.tableSize && Records(data, pos, h, acc, ended).Ok? && |acc| <= MAX_HEADERS
    ensures AreParts(parts) && At(data, pos, PartBytes(parts))
    ensures parts != [] && Finishes(parts, h.tableSize - ended) && |acc| + |parts| <= MAX_HEADERS + 1
    decreases |data| - pos
  {
    hide Word, At, ReadBody, ContentBytes, IsPart, BodyOf, Be32;
    var hunk, raw := h.first + ended, Be32(data, pos);
    var p := ContentFound(data, pos + 4, raw % 0x4000_0000, raw / 0x4000_0000);
    assert p.flags * 0x4000_0000 + p.kind == raw;
    var read := ReadRecord(data, pos, hunk).value;
    ContentBack(data, pos + 4, p);
    BodyKinds(p);
    var over := if p.content.Over? then ended + 1 else ended;
    if p.content.Unknown? || over == h.tableSize {
      parts := [p];
      OnlyPart(p, h.tableSize - ended);
      assert [] + ContentBytes(p) + [] == ContentBytes(p) + [];
      assert ContentBytes(p) + [] == ContentBytes(p);
      WordBefore(data, pos, ContentBytes(p));
    } else {
      var rest := PartsFound(data, read.next, h, acc + [read.value], over);
      parts := [p] + rest;
      AtJoin(data, pos + 4, ContentBytes(p), PartBytes(rest));
      WordBefore(data, pos, ContentBytes(p) + PartBytes(rest));
      PartBefore(p, rest, h.tableSize - ended);
    }
  }

  lemma OnlyPart(p: Part, hunks: nat)
    requires IsPart(p) && hunks > 0 && (p.content.Unknown? || (p.content.Over? && hunks == 1))
    ensures AreParts([p]) && Finishes([p], hunks)
    ensures p.flags * 0x4000_0000 + p.kind < WORD && PartBytes([p]) == Word(p.flags * 0x4000_0000 + p.kind) + (ContentBytes(p) + [])
  {
    hide Word, ContentBytes;
    assert [p][1..] == [];
    assert Overs([p][1..]) == 0;
  }

  lemma FinishesBefore(p: Part, rest: seq<Part>, hunks: nat)
    requires rest != []
    requires var ends := if p.content.Over? then 1 else 0; ends < hunks && Finishes(rest, hunks - ends)
    ensures Finishes([p] + rest, hunks)
  {
    var parts := [p] + rest;
    assert parts[1..] == rest && parts[|parts| - 1] == rest[|rest| - 1];
    assert Overs(parts) == (if p.content.Over? then 1 else 0) + Overs(rest);
    hide Overs;
  }

  lemma PartBefore(p: Part, rest: seq<Part>, hunks: nat)
    requires IsPart(p) && !p.content.Unknown? && rest != [] && AreParts(rest)
    requires var ends := if p.content.Over? then 1 else 0; ends < hunks && Finishes(rest, hunks - ends)
    ensures AreParts([p] + rest) && Finishes([p] + rest, hunks)
    ensures p.flags * 0x4000_0000 + p.kind < WORD
    ensures PartBytes([p] + rest) == Word(p.flags * 0x4000_0000 + p.kind) + (ContentBytes(p) + PartBytes(rest))
  {
    hide Word, ContentBytes, Finishes, Overs;
    FinishesBefore(p, rest, hunks);
    assert ([p] + rest)[1..] == rest;
  }

  lemma {:induction false} WordsDeclared(words: seq<nat>)
    requires AllWords(words)
    ensures AreDeclared(Declares(words)) && DeclaredWords(Declares(words)) == words
  {
    if words != [] {
      var before, raw := words[..|words| - 1], words[|words| - 1];
      WordsDeclared(before);
      var all := Declares(words);
      assert all[..|all| - 1] == Declares(before);
      assert raw / 0x4000_0000 * 0x4000_0000 + raw % 0x4000_0000 == raw;
      assert words == before + [raw];
    }
  }

  lemma TableFound(data: seq<byte>, pos: nat, names: seq<seq<byte>>, rest: seq<byte>)
    requires Table(data, pos, names).Ok? && At(data, Table(data, pos, names).value.next, rest)
    ensures var h := Table(data, pos, names).value.value;
            && 0 < |h.declared| <= MAX_SECTIONS && h.first + |h.declared| <= WORD && AreDeclared(h.declared)
            && h.tableSize == |h.declared|
            && At(data, pos, Word(|h.declared|) + (Word(h.first) + (Word(h.first + |h.declared| - 1)
                             + (WordBytes(DeclaredWords(h.declared)) + rest))))
  {
    hide Word, Be32, At, Words, AllWords, WordBytes, Declares, AreDeclared, DeclaredWords;
    var h := Table(data, pos, names).value.value;
    var words := Words(data, pos + 12, h.tableSize);
    WordsFound(data, pos + 12, h.tableSize);
    WordsDeclared(words);
    AtJoin(data, pos + 12, WordBytes(words), rest);
    WordBefore(data, pos + 8, WordBytes(words) + rest);
    WordBefore(data, pos + 4, Word(Be32(data, pos + 8)) + (WordBytes(words) + rest));
    WordBefore(data, pos, Word(Be32(data, pos + 4)) + (Word(Be32(data, pos + 8)) + (WordBytes(words) + rest)));
  }

  /** A file that was parsed was printed. */
  lemma ImageFound(data: seq<byte>) returns (i: Image)
    requires Parse(data).Ok?
    ensures IsImage(i) && At(data, 4, AfterMagic(i))
  {
    hide Word, At, Has, Be32, Words, Names, Table, Records, NameBytes, PartBytes, WordBytes, DeclaredWords,
         Declares, AllWords, AreDeclared, AreNames, AreParts, Trimmed, RecordsOf, Overs, Finishes;
    var read := Names(data, 4, []).value;
    var names := NamesFound(data, 4, []);
    NamesBack(data, 4, names, []);
    var h := Table(data, read.next, read.value).value;
    var parts := PartsFound(data, h.next, h.value, [], 0);
    TableFound(data, read.next, read.value, PartBytes(parts));
    i := Image(names, h.value.first, h.value.declared, parts);
    AtJoin(data, 4, NameBytes(names), Word(|i.declared|) + (Word(i.first) + (Word(i.first + |i.declared| - 1)
                                      + (WordBytes(DeclaredWords(i.declared)) + PartBytes(parts)))));
  }

  /** A parse returns this result, having consumed `consumed` bytes, exactly when they are a printed file it belongs to. */
  lemma ParseIff(data: seq<byte>, parsed: Parsed, consumed: nat)
    ensures Parse(data) == Ok(Hunk.Read(parsed, consumed))
       <==> exists i :: IsImage(i) && At(data, 4, AfterMagic(i)) && parsed == ParsedOf(i) && consumed == 4 + |AfterMagic(i)|
  {
    hide Parse, IsImage, At, AfterMagic, ParsedOf;
    forall i | IsImage(i) && At(data, 4, AfterMagic(i))
      ensures Parse(data) == Ok(Hunk.Read(ParsedOf(i), 4 + |AfterMagic(i)|))
    {
      ImageBack(data, i);
    }
    if Parse(data).Ok? {
      var i := ImageFound(data);
    }
  }
}

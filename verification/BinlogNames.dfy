/** events::composite_binlog_name and the names of the objects a storage directory holds. */
module BinlogNames {
  import opened Prelude

  datatype RawName = RawName(base: string, number: nat)

  /** What the checking constructor accepts. */
  predicate Acceptable(n: RawName) {
    n.base != "" && '/' !in n.base && 0 < n.number < 1_000_000
  }

  type Name = n: RawName | Acceptable(n) witness RawName("b", 1)

  predicate IsDigit(c: char) {
    '0' <= c <= '9'
  }

  function DigitChar(d: nat): (c: char)
    requires d < 10
  {
    '0' + d as char
  }

  /** The lowest k decimal digits of n, zero filled. */
  function Digits(n: nat, k: nat): (s: string)
    ensures |s| == k
    ensures forall i :: 0 <= i < k ==> IsDigit(s[i])
  {
    if k == 0 then "" else Digits(n / 10, k - 1) + [DigitChar(n % 10)]
  }

  function DigitValue(c: char): nat
    requires IsDigit(c)
  {
    c as int - '0' as int
  }

  function DigitsValue(s: string): nat
    requires forall i :: 0 <= i < |s| ==> IsDigit(s[i])
  {
    if s == "" then 0
    else
      assert IsDigit(s[|s| - 1]);
      10 * DigitsValue(s[..|s| - 1]) + DigitValue(s[|s| - 1])
  }

  function Pow10(k: nat): nat {
    if k == 0 then 1 else 10 * Pow10(k - 1)
  }

  lemma {:induction false} DigitsRoundTrip(n: nat, k: nat)
    requires n < Pow10(k)
    ensures DigitsValue(Digits(n, k)) == n
  {
    if k != 0 {
      DigitsRoundTrip(n / 10, k - 1);
      var s := Digits(n, k);
      assert s[..|s| - 1] == Digits(n / 10, k - 1);
    }
  }

  lemma {:induction false} DigitsValueRoundTrip(s: string)
    requires forall i :: 0 <= i < |s| ==> IsDigit(s[i])
    ensures DigitsValue(s) < Pow10(|s|)
    ensures Digits(DigitsValue(s), |s|) == s
  {
    if s != "" {
      var k := |s| - 1;
      DigitsValueRoundTrip(s[..k]);
      var hi, lo := DigitsValue(s[..k]), DigitValue(s[k]);
      assert (10 * hi + lo) / 10 == hi && (10 * hi + lo) % 10 == lo;
      assert Digits(10 * hi + lo, k + 1) == s[..k] + [s[k]];
      assert s == s[..k] + [s[k]];
    }
  }

  const NUMBER_WIDTH: nat := 6

  function Str(n: Name): string {
    n.base + "." + Digits(n.number, NUMBER_WIDTH)
  }

  function Parse(s: string): (r: Option<Name>)
    ensures r.Some? ==> Str(r.value) == s
  {
    if |s| <= NUMBER_WIDTH + 1 then None
    else
      var p := |s| - NUMBER_WIDTH - 1;
      var digits := s[p + 1..];
      if s[p] != '.' then None
      else if exists i :: 0 <= i < |digits| && !IsDigit(digits[i]) then None
      else
        DigitsValueRoundTrip(digits);
        assert s == s[..p] + "." + digits;
        var n := RawName(s[..p], DigitsValue(digits));
        assert Pow10(6) == 1_000_000;
        if Acceptable(n) then Some(n) else None
  }

  /** Parsing undoes printing for every acceptable name. */
  lemma ParseOfStr(n: Name)
    ensures Parse(Str(n)) == Some(n)
  {
    var s := Str(n);
    var p := |s| - NUMBER_WIDTH - 1;
    assert Pow10(6) == 1_000_000;
    DigitsRoundTrip(n.number, NUMBER_WIDTH);
    assert s[..p] == n.base;
    assert s[p] == '.';
    assert s[p + 1..] == Digits(n.number, NUMBER_WIDTH);
  }

  lemma StrInjective(m: Name, n: Name)
    requires Str(m) == Str(n)
    ensures m == n
  {
    ParseOfStr(m);
    ParseOfStr(n);
  }

  /** next(): the constructor rejects the number 1000000. */
  function Next(n: Name): (r: Option<Name>)
    ensures r.Some? <==> n.number < 999_999
    ensures r.Some? ==> r.value.base == n.base && r.value.number == n.number + 1
  {
    if n.number + 1 < 1_000_000 then Some(RawName(n.base, n.number + 1)) else None
  }

  // ----- object names ------------------------------------------------------------------

  const INDEX_NAME: string := "binlog.index"
  const METADATA_NAME: string := "metadata.json"
  const METADATA_EXTENSION: string := ".json"

  function MetaName(n: Name): string {
    Str(n) + METADATA_EXTENSION
  }

  /** std::filesystem::path::extension() == ".json": the stem must not be empty. */
  predicate HasJsonExtension(s: string) {
    |s| > 5 && s[|s| - 5..] == METADATA_EXTENSION
  }

  lemma NameKinds(n: Name)
    ensures !HasJsonExtension(Str(n)) && HasJsonExtension(MetaName(n))
    ensures Str(n) != INDEX_NAME && Str(n) != METADATA_NAME
    ensures MetaName(n) != INDEX_NAME && MetaName(n) != METADATA_NAME
    ensures !HasJsonExtension(INDEX_NAME) && HasJsonExtension(METADATA_NAME)
  {
    var s := Str(n);
    assert IsDigit(s[|s| - 1]);
    assert INDEX_NAME[|INDEX_NAME| - 1] == 'x';
    assert METADATA_NAME[|METADATA_NAME| - 1] == 'n';
    assert s[|s| - 5..][4] == s[|s| - 1];
    var m := MetaName(n);
    assert m[|m| - 5..] == METADATA_EXTENSION;
    assert m[|m| - 1] == 'n';
    assert m[|m| - 6] == s[|s| - 1];
    assert METADATA_NAME[|METADATA_NAME| - 6] == 'a';
    assert METADATA_NAME[|METADATA_NAME| - 5..] == METADATA_EXTENSION;
    assert INDEX_NAME[|INDEX_NAME| - 5..][4] == 'x';
  }

  /** What a name in a storage directory stands for. */
  datatype ObjectName =
    | StorageMetadata
    | BinlogIndex
    | PayloadFile(name: Name)
    | MetadataFile(name: Name)
    | Foreign(text: string)

  function Render(o: ObjectName): string {
    match o
    case StorageMetadata => METADATA_NAME
    case BinlogIndex => INDEX_NAME
    case PayloadFile(n) => Str(n)
    case MetadataFile(n) => MetaName(n)
    case Foreign(s) => s
  }

  /** The constructor's sorting of a directory entry: two fixed names, then by extension. */
  function Classify(s: string): (o: ObjectName)
    ensures Render(o) == s
  {
    if s == METADATA_NAME then StorageMetadata
    else if s == INDEX_NAME then BinlogIndex
    else if HasJsonExtension(s) then
      var n := Parse(s[..|s| - 5]);
      if n.Some? then
        assert s == s[..|s| - 5] + METADATA_EXTENSION;
        MetadataFile(n.value)
      else Foreign(s)
    else
      var n := Parse(s);
      if n.Some? then PayloadFile(n.value) else Foreign(s)
  }

  /**
   * The object names of the model are in bijection with the strings of a directory: no two of
   * them print alike, and printing is undone by sorting the entry back.
   */
  lemma ClassifyOfRender(o: ObjectName)
    ensures !o.Foreign? ==> Classify(Render(o)) == o
    ensures o.PayloadFile? ==> !HasJsonExtension(Render(o))
    ensures o.MetadataFile? ==> HasJsonExtension(Render(o))
  {
    match o
    case PayloadFile(n) =>
      NameKinds(n);
      ParseOfStr(n);
    case MetadataFile(n) =>
      NameKinds(n);
      ParseOfStr(n);
      assert Render(o)[..|Render(o)| - 5] == Str(n);
    case _ =>
  }

  // ----- the text index ----------------------------------------------------------------

  /** save_binlog_index: one "./<name>" line per record. */
  function IndexText(names: seq<Name>): string {
    if names == [] then ""
    else "./" + Str(names[0]) + "\n" + IndexText(names[1..])
  }

  function IndexOf(s: string, c: char): (k: nat)
    ensures k <= |s|
    ensures k < |s| ==> s[k] == c
    ensures forall i :: 0 <= i < k ==> s[i] != c
  {
    if s == "" || s[0] == c then 0 else 1 + IndexOf(s[1..], c)
  }

  function LastIndexOf(s: string, c: char): (k: int)
    ensures -1 <= k < |s|
    ensures k >= 0 ==> s[k] == c
    ensures forall i :: k < i < |s| ==> s[i] != c
  {
    if s == "" then -1
    else if s[|s| - 1] == c then |s| - 1
    else LastIndexOf(s[..|s| - 1], c)
  }

  function StripSlashes(s: string): string {
    if s != "" && s[|s| - 1] == '/' then StripSlashes(s[..|s| - 1]) else s
  }

  /** One non-empty index line: its directory must be ".", its file name must parse. */
  function ParseLine(line: string): Option<Name> {
    var p := LastIndexOf(line, '/');
    if p < 0 || StripSlashes(line[..p]) != "." then None
    else if line[p + 1..] == INDEX_NAME then None
    else Parse(line[p + 1..])
  }

  /** load_binlog_index: std::getline over the text; any bad or repeated entry is an error. */
  function LoadIndex(text: string, known: seq<Name>): Result<seq<Name>>
    decreases |text|
  {
    if text == "" then Ok(known)
    else
      var k := IndexOf(text, '\n');
      var line := text[..k];
      var rest := if k < |text| then text[k + 1..] else "";
      if line == "" then LoadIndex(rest, known)
      else
        var entry := ParseLine(line);
        if entry.None? || entry.value in known then Err
        else LoadIndex(rest, known + [entry.value])
  }

  lemma IndexOfPrefix(a: string, b: string, c: char)
    requires c !in a
    ensures IndexOf(a + [c] + b, c) == |a|
  {
    var s := a + [c] + b;
    var k := IndexOf(s, c);
    assert s[|a|] == c;
    assert forall i :: 0 <= i < |a| ==> s[i] == a[i];
  }

  /** A character outside '.', and the digits occurs in the printed name iff it occurs in the base. */
  lemma CharInStr(n: Name, c: char)
    requires c != '.' && !IsDigit(c)
    ensures c in Str(n) <==> c in n.base
  {
    var s, d := Str(n), Digits(n.number, NUMBER_WIDTH);
    assert forall i :: 0 <= i < |n.base| ==> s[i] == n.base[i];
    assert s[|n.base|] == '.';
    assert forall i :: |n.base| < i < |s| ==> s[i] == d[i - |n.base| - 1];
    if c in n.base {
      var i :| 0 <= i < |n.base| && n.base[i] == c;
      assert s[i] == c;
    }
  }

  lemma SavedLineParses(n: Name)
    ensures ParseLine("./" + Str(n)) == Some(n)
  {
    var s := Str(n);
    var line := "./" + s;
    CharInStr(n, '/');
    assert line[1] == '/';
    assert forall i :: 2 <= i < |line| ==> line[i] == s[i - 2];
    assert LastIndexOf(line, '/') == 1;
    assert line[..1] == ".";
    assert line[2..] == s;
    NameKinds(n);
    ParseOfStr(n);
  }

  ghost predicate SingleLine(n: Name) {
    '\n' !in n.base
  }

  lemma SavedEntryLoads(n: Name, rest: string, known: seq<Name>)
    requires SingleLine(n)
    ensures LoadIndex("./" + Str(n) + "\n" + rest, known)
         == if n in known then Err else LoadIndex(rest, known + [n])
  {
    var line := "./" + Str(n);
    var text := line + "\n" + rest;
    CharInStr(n, '\n');
    assert '\n' !in line;
    IndexOfPrefix(line, rest, '\n');
    assert text[..|line|] == line;
    assert text[|line| + 1..] == rest;
    SavedLineParses(n);
  }

  /** A name holding a newline is written over several lines, the last of which has no directory part. */
  lemma {:induction false} BrokenLineRefused(part: string, rest: string, known: seq<Name>)
    requires part != "" && '/' !in part && part[|part| - 1] != '\n'
    ensures LoadIndex(part + "\n" + rest, known) == Err
    decreases |part|
  {
    var text := part + "\n" + rest;
    var k := IndexOf(part, '\n');
    if k == |part| {
      assert '\n' !in part;
      IndexOfPrefix(part, rest, '\n');
    } else {
      assert part == part[..k] + "\n" + part[k + 1..];
      assert text == part[..k] + "\n" + (part[k + 1..] + "\n" + rest);
      IndexOfPrefix(part[..k], part[k + 1..] + "\n" + rest, '\n');
      if k == 0 {
        assert text[k + 1..] == part[k + 1..] + "\n" + rest;
        BrokenLineRefused(part[1..], rest, known);
      }
    }
    var j := IndexOf(text, '\n');
    var line := text[..j];
    if j != 0 {
      assert line == part[..j];
      assert LastIndexOf(line, '/') == -1;
    }
  }

  /** A printed name with a newline splits at its first newline into a line and a broken part. */
  lemma SplitAtNewline(n: Name) returns (head: string, tail: string)
    requires !SingleLine(n)
    ensures Str(n) == head + "\n" + tail
    ensures '\n' !in head && tail != "" && '/' !in tail && tail[|tail| - 1] != '\n'
  {
    var s := Str(n);
    CharInStr(n, '\n');
    CharInStr(n, '/');
    var k := IndexOf(s, '\n');
    assert IsDigit(s[|s| - 1]);
    head, tail := s[..k], s[k + 1..];
    assert forall i :: 0 <= i < |tail| ==> tail[i] == s[k + 1 + i];
  }

  lemma SplitNameRefused(n: Name, rest: string, known: seq<Name>)
    requires !SingleLine(n)
    ensures LoadIndex("./" + Str(n) + "\n" + rest, known) == Err
  {
    var head, tail := SplitAtNewline(n);
    var line, more := "./" + head, tail + "\n" + rest;
    var text := line + "\n" + more;
    assert "./" + Str(n) + "\n" + rest == text;
    assert '\n' !in line;
    IndexOfPrefix(line, more, '\n');
    assert text[..|line|] == line;
    assert text[|line| + 1..] == more;
    var entry := ParseLine(line);
    if entry.Some? && entry.value !in known {
      BrokenLineRefused(tail, rest, known + [entry.value]);
    }
  }

  /** Loading a saved index after `known` entries: all names in order, or a refusal. */
  lemma {:induction false} LoadOfSaved(names: seq<Name>, known: seq<Name>)
    requires Distinct(known)
    ensures LoadIndex(IndexText(names), known)
         == if Distinct(known + names) && (forall n | n in names :: SingleLine(n))
            then Ok(known + names) else Err
  {
    if names == [] {
      assert known + names == known;
    } else {
      var n, rest := names[0], names[1..];
      assert IndexText(names) == "./" + Str(n) + "\n" + IndexText(rest);
      assert known + names == (known + [n]) + rest;
      assert (known + names)[|known|] == n;
      if !SingleLine(n) {
        SplitNameRefused(n, IndexText(rest), known);
      } else {
        SavedEntryLoads(n, IndexText(rest), known);
        if n in known {
          var i :| 0 <= i < |known| && known[i] == n;
          assert (known + names)[i] == n;
        } else {
          LoadOfSaved(rest, known + [n]);
          assert forall m :: m in names <==> m == n || m in rest;
        }
      }
    }
  }

  /** The saved index loads back as the same list exactly when the names are distinct and newline free. */
  lemma IndexRoundTrip(names: seq<Name>)
    ensures LoadIndex(IndexText(names), []) == Ok(names)
       <==> Distinct(names) && (forall n | n in names :: SingleLine(n))
    ensures LoadIndex(IndexText(names), []) != Ok(names) ==> LoadIndex(IndexText(names), []) == Err
  {
    LoadOfSaved(names, []);
    assert [] + names == names;
  }

  // ----- which lines and which texts are accepted --------------------------------------

  /** A dot and nothing but slashes behind it. */
  predicate DotAndSlashes(s: string) {
    s != "" && s[0] == '.' && forall i :: 0 < i < |s| ==> s[i] == '/'
  }

  lemma {:induction false} StripIff(s: string)
    ensures StripSlashes(s) == "." <==> DotAndSlashes(s)
  {
    if s != "" && s[|s| - 1] == '/' {
      StripIff(s[..|s| - 1]);
    } else if DotAndSlashes(s) {
      assert |s| == 1 && s == ".";
    }
  }

  /** A dot, at least one slash and the name of a file. */
  predicate IsEntry(line: string, n: Name) {
    var p := |line| - |Str(n)|;
    p >= 2 && DotAndSlashes(line[..p]) && line[p..] == Str(n)
  }

  lemma DotGrows(line: string, p: nat)
    requires p < |line|
    ensures p > 0 && DotAndSlashes(line[..p + 1]) <==> DotAndSlashes(line[..p]) && line[p] == '/'
  {
    assert forall i :: 0 <= i < p ==> line[..p][i] == line[..p + 1][i] == line[i];
  }

  lemma LineIff(line: string, n: Name)
    ensures ParseLine(line) == Some(n) <==> IsEntry(line, n)
  {
    hide Parse, Str, StripSlashes, DotAndSlashes;
    if ParseLine(line) == Some(n) {
      var k := LastIndexOf(line, '/');
      StripIff(line[..k]);
      DotGrows(line, k);
    } else if IsEntry(line, n) {
      var p := |line| - |Str(n)| - 1;
      DotGrows(line, p);
      LastSlash(line, p, n);
      StripIff(line[..p]);
      ParseOfStr(n);
      NameKinds(n);
    }
  }

  lemma LastSlash(line: string, p: nat, n: Name)
    requires p < |line| && line[p] == '/' && line[p + 1..] == Str(n)
    ensures LastIndexOf(line, '/') == p
  {
    hide Str;
    CharInStr(n, '/');
    assert forall i :: p < i < |line| ==> line[i] == Str(n)[i - p - 1];
  }

  /** The lines of a text, empty ones left out. */
  function Lines(text: string): seq<string>
    decreases |text|
  {
    if text == "" then []
    else
      var k := IndexOf(text, '\n');
      (if k == 0 then [] else [text[..k]]) + Lines(if k < |text| then text[k + 1..] else "")
  }

  function LoadLines(lines: seq<string>, known: seq<Name>): Result<seq<Name>> {
    if lines == [] then Ok(known)
    else
      var entry := ParseLine(lines[0]);
      if entry.None? || entry.value in known then Err else LoadLines(lines[1..], known + [entry.value])
  }

  lemma OneMoreLine(line: string, lines: seq<string>, known: seq<Name>)
    ensures LoadLines([line] + lines, known)
         == var entry := ParseLine(line);
            if entry.None? || entry.value in known then Err else LoadLines(lines, known + [entry.value])
  {
    hide ParseLine;
    assert ([line] + lines)[1..] == lines;
  }

  function FirstLine(text: string): string {
    text[..IndexOf(text, '\n')]
  }

  function OtherLines(text: string): (rest: string)
    requires text != ""
    ensures |rest| < |text|
  {
    var k := IndexOf(text, '\n');
    if k < |text| then text[k + 1..] else ""
  }

  lemma LineByLine(text: string, known: seq<Name>)
    requires text != ""
    ensures Lines(text) == (if FirstLine(text) == "" then [] else [FirstLine(text)]) + Lines(OtherLines(text))
    ensures LoadIndex(text, known)
         == if FirstLine(text) == "" then LoadIndex(OtherLines(text), known)
            else
              var entry := ParseLine(FirstLine(text));
              if entry.None? || entry.value in known then Err
              else LoadIndex(OtherLines(text), known + [entry.value])
  {
    hide ParseLine;
  }

  lemma {:induction false} LoadByLines(text: string, known: seq<Name>)
    ensures LoadIndex(text, known) == LoadLines(Lines(text), known)
    decreases |text|
  {
    if text == "" {
      assert Lines(text) == [];
    } else {
      hide ParseLine, LoadIndex, Lines, LoadLines, FirstLine, OtherLines;
      LineByLine(text, known);
      var line, rest := FirstLine(text), OtherLines(text);
      if line == "" {
        assert [] + Lines(rest) == Lines(rest);
        LoadByLines(rest, known);
      } else {
        var entry := ParseLine(line);
        OneMoreLine(line, Lines(rest), known);
        if entry.Some? { LoadByLines(rest, known + [entry.value]); }
      }
    }
  }

  ghost predicate Entries(lines: seq<string>, names: seq<Name>) {
    |names| == |lines| && forall i :: 0 <= i < |names| ==> ParseLine(lines[i]) == Some(names[i])
  }

  lemma {:induction false} LinesGiveEntries(lines: seq<string>, known: seq<Name>)
    requires Distinct(known) && LoadLines(lines, known).Ok?
    ensures var names := LoadLines(lines, known).value;
      Distinct(names) && known <= names && Entries(lines, names[|known|..])
  {
    hide ParseLine;
    if lines != [] {
      var e := ParseLine(lines[0]).value;
      LinesGiveEntries(lines[1..], known + [e]);
      var names := LoadLines(lines, known).value;
      assert names[|known|..] == [e] + names[|known| + 1..];
    }
  }

  lemma {:induction false} EntriesAreLoaded(lines: seq<string>, known: seq<Name>, names: seq<Name>)
    requires Distinct(known + names) && Entries(lines, names)
    ensures LoadLines(lines, known) == Ok(known + names)
  {
    hide ParseLine;
    if names == [] {
      assert known + names == known;
    } else {
      assert ParseLine(lines[0]) == Some(names[0]);
      assert (known + names)[|known|] == names[0];
      assert forall i :: 0 <= i < |known| ==> (known + names)[i] == known[i];
      assert known + names == known + [names[0]] + names[1..];
      EntriesAreLoaded(lines[1..], known + [names[0]], names[1..]);
    }
  }

  /** An index is accepted iff every line of it is an entry and no file is listed twice. */
  lemma IndexIff(text: string, names: seq<Name>)
    ensures LoadIndex(text, []) == Ok(names)
      <==> && |names| == |Lines(text)| && Distinct(names)
           && forall i :: 0 <= i < |names| ==> IsEntry(Lines(text)[i], names[i])
  {
    hide LoadIndex, Lines, LoadLines, ParseLine, IsEntry;
    var lines := Lines(text);
    LoadByLines(text, []);
    forall i | 0 <= i < |names| && i < |lines|
      ensures ParseLine(lines[i]) == Some(names[i]) <==> IsEntry(lines[i], names[i])
    {
      LineIff(lines[i], names[i]);
    }
    assert [] + names == names && names[0..] == names;
    if LoadLines(lines, []) == Ok(names) {
      LinesGiveEntries(lines, []);
    } else if Distinct(names) && Entries(lines, names) {
      EntriesAreLoaded(lines, [], names);
    }
  }

  // ----- which texts are names ---------------------------------------------------------

  /** A base without slashes, a dot and six digits that are not all zero. */
  ghost predicate IsName(s: string) {
    && |s| > 7
    && var p := |s| - 7;
       && s[p] == '.' && '/' !in s[..p]
       && (forall i :: p < i < |s| ==> IsDigit(s[i])) && exists i :: p < i < |s| && s[i] != '0'
  }

  lemma {:induction false} ZeroDigits(s: string)
    requires forall i :: 0 <= i < |s| ==> IsDigit(s[i])
    ensures DigitsValue(s) == 0 <==> forall i :: 0 <= i < |s| ==> s[i] == '0'
  {
    if s != "" {
      var n := |s| - 1;
      assert IsDigit(s[n]);
      ZeroDigits(s[..n]);
      assert forall i :: 0 <= i < n ==> s[..n][i] == s[i];
    }
  }

  /** Exactly these texts parse. */
  lemma ParseIff(s: string)
    ensures Parse(s).Some? <==> IsName(s)
  {
    if |s| > 7 {
      var p := |s| - 7;
      var d := s[p + 1..];
      assert forall i :: 0 <= i < |d| ==> d[i] == s[p + 1 + i];
      assert forall i :: p < i < |s| ==> s[i] == d[i - p - 1];
      if forall i :: 0 <= i < |d| ==> IsDigit(d[i]) {
        ZeroDigits(d);
        DigitsValueRoundTrip(d);
        assert Pow10(6) == 1_000_000;
      }
    }
  }
}

/**
 * The `params.env` codec: parse, print, and the mappers in between. Text is a
 * sequence of bytes, one char per byte.
 */
module ParamsCodec {
  import opened Options
  import opened Ordering

  /** `bufio.MaxScanTokenSize`: a line and its newline must fit in this many bytes. */
  const MAX_SCAN := 65536

  // ----- strings.TrimSpace on bytes -----

  // The UTF-8 encodings of the runes `unicode.IsSpace` accepts, by length.

  predicate IsSpace1(a: char) {
    '\t' <= a <= '\r' || a == ' '
  }

  predicate IsSpace2(a: char, b: char) {
    a == '\U{C2}' && (b == '\U{85}' || b == '\U{A0}')
  }

  predicate IsSpace3(a: char, b: char, c: char) {
    || (a == '\U{E1}' && b == '\U{9A}' && c == '\U{80}')
    || (a == '\U{E2}' && b == '\U{80}' &&
        ('\U{80}' <= c <= '\U{8A}' || c == '\U{A8}' || c == '\U{A9}' || c == '\U{AF}'))
    || (a == '\U{E2}' && b == '\U{81}' && c == '\U{9F}')
    || (a == '\U{E3}' && b == '\U{80}' && c == '\U{80}')
  }

  /** The length of the space rune at the front, 0 if there is none. */
  function SpacePrefix(s: string): (n: nat)
    ensures n <= |s|
  {
    if |s| >= 1 && IsSpace1(s[0]) then 1
    else if |s| >= 2 && IsSpace2(s[0], s[1]) then 2
    else if |s| >= 3 && IsSpace3(s[0], s[1], s[2]) then 3
    else 0
  }

  /** The length of the space rune at the end, 0 if there is none. */
  function SpaceSuffix(s: string): (n: nat)
    ensures n <= |s|
  {
    var l := |s|;
    if l >= 1 && IsSpace1(s[l - 1]) then 1
    else if l >= 2 && IsSpace2(s[l - 2], s[l - 1]) then 2
    else if l >= 3 && IsSpace3(s[l - 3], s[l - 2], s[l - 1]) then 3
    else 0
  }

  function TrimLeft(s: string): string
    decreases |s|
  {
    if SpacePrefix(s) == 0 then s else TrimLeft(s[SpacePrefix(s)..])
  }

  function TrimRight(s: string): string
    decreases |s|
  {
    if SpaceSuffix(s) == 0 then s else TrimRight(s[..|s| - SpaceSuffix(s)])
  }

  function TrimSpace(s: string): string {
    TrimRight(TrimLeft(s))
  }

  lemma PrefixOfTrimmed(s: string, n: nat)
    requires n <= |s| && SpacePrefix(s) == 0
    ensures SpacePrefix(s[..n]) == 0
  {
  }

  lemma SuffixOfTrimmed(s: string, n: nat)
    requires n <= |s| && SpaceSuffix(s) == 0
    ensures SpaceSuffix(s[n..]) == 0
  {
  }

  lemma {:induction false} TrimLeftTrims(s: string)
    ensures SpacePrefix(TrimLeft(s)) == 0
    ensures |TrimLeft(s)| <= |s| && forall c | c in TrimLeft(s) :: c in s
    decreases |s|
  {
    if SpacePrefix(s) != 0 {
      TrimLeftTrims(s[SpacePrefix(s)..]);
    }
  }

  lemma {:induction false} TrimRightTrims(s: string)
    ensures SpaceSuffix(TrimRight(s)) == 0
    ensures TrimRight(s) <= s
    decreases |s|
  {
    if SpaceSuffix(s) != 0 {
      TrimRightTrims(s[..|s| - SpaceSuffix(s)]);
    }
  }

  /** Trimming leaves a text with no space at either end, and trims nothing twice. */
  lemma TrimSpaceTrims(s: string)
    ensures SpacePrefix(TrimSpace(s)) == 0 && SpaceSuffix(TrimSpace(s)) == 0
    ensures TrimSpace(TrimSpace(s)) == TrimSpace(s)
    ensures |TrimSpace(s)| <= |s| && forall c | c in TrimSpace(s) :: c in s
    ensures SpacePrefix(s) == 0 ==> TrimSpace(s) <= s
  {
    var l := TrimLeft(s);
    var t := TrimRight(l);
    TrimLeftTrims(s);
    TrimRightTrims(l);
    assert t == l[..|t|];
    PrefixOfTrimmed(l, |t|);
    assert TrimLeft(t) == t && TrimRight(t) == t;
  }

  // ----- lines -----

  /** The index of the first `c`, or the length when there is none. */
  function IndexOf(s: string, c: char): (i: nat)
    ensures i <= |s|
  {
    if s == "" || s[0] == c then 0 else 1 + IndexOf(s[1..], c)
  }

  lemma {:induction false} IndexOfFinds(s: string, c: char)
    ensures c !in s[..IndexOf(s, c)]
    ensures IndexOf(s, c) < |s| ==> s[IndexOf(s, c)] == c
  {
    if s != "" && s[0] != c {
      IndexOfFinds(s[1..], c);
      assert s[..IndexOf(s, c)] == [s[0]] + s[1..][..IndexOf(s[1..], c)];
    }
  }

  lemma {:induction false} FirstIndex(s: string, c: char, i: nat)
    requires i <= |s| && c !in s[..i] && (i < |s| ==> s[i] == c)
    ensures IndexOf(s, c) == i
  {
    if i > 0 {
      assert s[0] in s[..i];
      assert s[..i] == [s[0]] + s[1..][..i - 1];
      FirstIndex(s[1..], c, i - 1);
    }
  }

  /** `bufio.ScanLines` before the carriage return is dropped. */
  function Lines(s: string): seq<string>
    decreases |s|
  {
    if s == "" then []
    else
      var i := IndexOf(s, '\n');
      if i == |s| then [s] else [s[..i]] + Lines(s[i + 1..])
  }

  function DropCR(line: string): string {
    if line != "" && line[|line| - 1] == '\r' then line[..|line| - 1] else line
  }

  datatype Entry = Entry(key: string, value: string)

  /** What one scanned line contributes. */
  function ParseLine(raw: string): Option<Entry> {
    var line := TrimSpace(DropCR(raw));
    if line == "" || line[0] == '#' then None
    else
      var i := IndexOf(line, '=');
      if i == |line| then None else Some(Entry(TrimSpace(line[..i]), line[i + 1..]))
  }

  /** The parsed map, and whether the scanner got to the end. */
  datatype Parsed = Parsed(params: map<string, string>, complete: bool)

  function Absorb(params: map<string, string>, raw: string): map<string, string> {
    match ParseLine(raw)
    case None => params
    case Some(e) => params[e.key := e.value]
  }

  function ParseLines(lines: seq<string>, params: map<string, string>): Parsed {
    if lines == [] then Parsed(params, true)
    else if |lines[0]| >= MAX_SCAN then Parsed(params, false)
    else ParseLines(lines[1..], Absorb(params, lines[0]))
  }

  function Unmarshalled(content: string): Parsed {
    ParseLines(Lines(content), map[])
  }

  /** The loop body of `Unmarshal`. */
  method ReadLine(raw: string, params: map<string, string>) returns (r: map<string, string>)
    ensures r == Absorb(params, raw)
  {
    r := params;
    var line := TrimSpace(DropCR(raw));
    if line == "" || line[0] == '#' {
      return;
    }
    var cut := IndexOf(line, '=');
    if cut < |line| {
      r := params[TrimSpace(line[..cut]) := line[cut + 1..]];
    }
  }

  /** `Scan`: the end of the line that starts at `pos`. */
  method EndOfLine(content: string, pos: nat) returns (end: nat)
    requires pos < |content|
    ensures pos <= end <= |content| && '\n' !in content[pos..end]
    ensures end < |content| ==> content[end] == '\n'
  {
    end := pos;
    while end < |content| && content[end] != '\n'
      invariant pos <= end <= |content|
      invariant '\n' !in content[pos..end]
    {
      assert content[pos..end + 1] == content[pos..end] + [content[end]];
      end := end + 1;
    }
  }

  lemma LineFrom(content: string, pos: nat, end: nat)
    requires pos < |content| && pos <= end <= |content| && '\n' !in content[pos..end]
    requires end < |content| ==> content[end] == '\n'
    ensures Lines(content[pos..]) ==
            [content[pos..end]] + if end == |content| then [] else Lines(content[end + 1..])
  {
    var s := content[pos..];
    assert s[..end - pos] == content[pos..end];
    assert end < |content| ==> s[end - pos + 1..] == content[end + 1..];
    LineEndsAt(s, end - pos);
  }

  method Unmarshal(content: string) returns (r: Parsed)
    ensures r == Unmarshalled(content)
  {
    hide Absorb;
    var params: map<string, string> := map[];
    var pos := 0;
    while pos < |content|
      invariant pos <= |content|
      invariant ParseLines(Lines(content[pos..]), params) == Unmarshalled(content)
    {
      var end := EndOfLine(content, pos);
      LineFrom(content, pos, end);
      var raw := content[pos..end];
      ghost var rest := if end == |content| then [] else Lines(content[end + 1..]);
      assert ([raw] + rest)[1..] == rest;
      if |raw| >= MAX_SCAN {
        return Parsed(params, false);
      }
      params := ReadLine(raw, params);
      pos := if end < |content| then end + 1 else end;
    }
    return Parsed(params, true);
  }

  lemma LineEndsAt(s: string, i: nat)
    requires s != "" && i <= |s| && '\n' !in s[..i] && (i < |s| ==> s[i] == '\n')
    ensures Lines(s) == [s[..i]] + if i == |s| then [] else Lines(s[i + 1..])
  {
    FirstIndex(s, '\n', i);
    assert s[..|s|] == s;
  }

  ghost function Printed(params: map<string, string>, keys: seq<string>): string
    requires forall k | k in keys :: k in params
  {
    if keys == [] then "" else keys[0] + "=" + params[keys[0]] + "\n" + Printed(params, keys[1..])
  }

  ghost function Marshalled(params: map<string, string>): string {
    var keys := Listing(params.Keys);
    assert forall k | k in keys :: k in Elements(keys);
    Printed(params, keys)
  }

  lemma PrintedStep(params: map<string, string>, keys: seq<string>, i: nat, text: string)
    requires i < |keys| && forall k | k in keys :: k in params
    ensures keys[i] in params
    ensures text + Printed(params, keys[i..])
         == text + (keys[i] + "=" + params[keys[i]] + "\n") + Printed(params, keys[i + 1..])
  {
    assert keys[i..][0] == keys[i] && keys[i..][1..] == keys[i + 1..];
    assert keys[i] in keys;
    var line, rest := keys[i] + "=" + params[keys[i]] + "\n", Printed(params, keys[i + 1..]);
    assert text + (line + rest) == text + line + rest;
  }

  lemma PrintedNothing(params: map<string, string>, keys: seq<string>)
    requires forall k | k in keys :: k in params
    ensures Printed(params, keys[|keys|..]) == ""
  {
  }

  /** The keys come out of the map in any order; the text is the same. */
  method Marshal(params: map<string, string>) returns (text: string)
    ensures text == Marshalled(params)
  {
    var keys := SortedKeys(params.Keys);
    ListingUnique(params.Keys, keys, Listing(params.Keys));
    assert forall k | k in keys :: k in Elements(keys);
    PrintedNothing(params, keys);
    hide Printed;
    text := "";
    for i := 0 to |keys|
      invariant text + Printed(params, keys[i..]) == Printed(params, keys)
    {
      PrintedStep(params, keys, i, text);
      text := text + (keys[i] + "=" + params[keys[i]] + "\n");
    }
  }

  // ----- which maps survive printing and parsing -----

  /** What a caller can check of an entry before printing it. */
  predicate Encodable(key: string, value: string) {
    && '\n' !in key && '=' !in key
    && TrimSpace(key) == key
    && (key != "" ==> key[0] != '#')
    && '\n' !in value
    && SpaceSuffix(value) == 0
    && |key| + 1 + |value| < MAX_SCAN
  }

  predicate Normal(params: map<string, string>) {
    forall k | k in params :: Encodable(k, params[k])
  }

  lemma CutIsEncodable(line: string)
    requires SpacePrefix(line) == 0 && SpaceSuffix(line) == 0 && '\n' !in line && |line| < MAX_SCAN
    requires line != "" && line[0] != '#' && IndexOf(line, '=') < |line|
    ensures Encodable(TrimSpace(line[..IndexOf(line, '=')]), line[IndexOf(line, '=') + 1..])
  {
    var i := IndexOf(line, '=');
    IndexOfFinds(line, '=');
    PrefixOfTrimmed(line, i);
    SuffixOfTrimmed(line, i + 1);
    hide TrimSpace;
    hide SpacePrefix;
    hide SpaceSuffix;
    TrimSpaceTrims(line[..i]);
  }

  lemma ParsedLineIsEncodable(raw: string)
    requires '\n' !in raw && |raw| < MAX_SCAN && ParseLine(raw).Some?
    ensures Encodable(ParseLine(raw).value.key, ParseLine(raw).value.value)
  {
    hide TrimSpace;
    hide Encodable;
    TrimSpaceTrims(DropCR(raw));
    assert forall c | c in DropCR(raw) :: c in raw;
    CutIsEncodable(TrimSpace(DropCR(raw)));
  }

  lemma {:induction false} LinesHaveNoNewline(s: string)
    ensures forall l | l in Lines(s) :: '\n' !in l
    decreases |s|
  {
    if s != "" {
      var i := IndexOf(s, '\n');
      IndexOfFinds(s, '\n');
      if i < |s| {
        LinesHaveNoNewline(s[i + 1..]);
      } else {
        assert s[..i] == s;
      }
    }
  }

  lemma {:induction false} ParseLinesNormal(lines: seq<string>, params: map<string, string>)
    requires Normal(params) && forall l | l in lines :: '\n' !in l
    ensures Normal(ParseLines(lines, params).params)
  {
    hide ParseLine;
    hide Encodable;
    if lines != [] && |lines[0]| < MAX_SCAN {
      assert lines[0] in lines;
      if ParseLine(lines[0]).Some? {
        ParsedLineIsEncodable(lines[0]);
      }
      ParseLinesNormal(lines[1..], Absorb(params, lines[0]));
    }
  }

  /** Whatever the input, what was parsed is normal. */
  lemma UnmarshalIsNormal(content: string)
    ensures Normal(Unmarshalled(content).params)
  {
    LinesHaveNoNewline(content);
    ParseLinesNormal(Lines(content), map[]);
  }

  lemma NoSpaceAroundEquals(key: string, value: string)
    requires SpacePrefix(key) == 0 && SpaceSuffix(value) == 0
    ensures SpacePrefix(key + "=" + value) == 0
    ensures SpaceSuffix(key + "=" + value) == 0
  {
    var line := key + "=" + value;
    var l, v := |line|, |value|;
    assert line[|key|] == '=';
    assert forall i | 0 <= i < |key| :: line[i] == key[i];
    assert forall i | 0 <= i < v :: line[l - v + i] == value[i];
  }

  /** An encodable entry is read back from its own line. */
  lemma ParsePrintedLine(key: string, value: string)
    requires Encodable(key, value)
    ensures ParseLine(key + "=" + value) == Some(Entry(key, value))
    ensures '\n' !in key + "=" + value && |key + "=" + value| < MAX_SCAN
  {
    var line := key + "=" + value;
    TrimSpaceTrims(key);
    NoSpaceAroundEquals(key, value);
    assert DropCR(line) == line;
    assert TrimSpace(line) == line;
    assert line[..|key|] == key && line[|key| + 1..] == value;
    FirstIndex(line, '=', |key|);
  }

  /** The first printed line is the first line read back. */
  lemma LinesOfPrinted(line: string, rest: string)
    requires '\n' !in line
    ensures Lines(line + "\n" + rest) == [line] + Lines(rest)
  {
    var text := line + "\n" + rest;
    assert text[..|line|] == line && text[|line|] == '\n' && text[|line| + 1..] == rest;
    LineEndsAt(text, |line|);
  }

  lemma ParseLinesCons(line: string, lines: seq<string>, params: map<string, string>)
    requires |line| < MAX_SCAN
    ensures ParseLines([line] + lines, params) == ParseLines(lines, Absorb(params, line))
  {
    hide Absorb;
    assert ([line] + lines)[1..] == lines;
  }

  ghost function Restricted(params: map<string, string>, keys: seq<string>): map<string, string>
    requires forall k | k in keys :: k in params
  {
    map k | k in keys :: params[k]
  }

  lemma {:induction false} ParsePrinted(params: map<string, string>, keys: seq<string>, acc: map<string, string>)
    requires Normal(params) && forall k | k in keys :: k in params
    ensures ParseLines(Lines(Printed(params, keys)), acc)
         == Parsed(acc + Restricted(params, keys), true)
  {
    hide ParseLine;
    hide Encodable;
    hide Lines;
    if keys == [] {
      assert Lines("") == [] by { LinesOfNothing(); }
      assert acc + Restricted(params, keys) == acc;
    } else {
      var k, rest := keys[0], keys[1..];
      assert k in keys;
      var line := k + "=" + params[k];
      ParsePrintedLine(k, params[k]);
      LinesOfPrinted(line, Printed(params, rest));
      ParseLinesCons(line, Lines(Printed(params, rest)), acc);
      ParsePrinted(params, rest, acc[k := params[k]]);
      assert acc[k := params[k]] + Restricted(params, rest) == acc + Restricted(params, keys);
    }
  }

  lemma LinesOfNothing()
    ensures Lines("") == []
  {
  }

  /** Printing then parsing gives the map back exactly when every entry is encodable. */
  lemma RoundTripsExactlyWhenNormal(params: map<string, string>)
    ensures Unmarshalled(Marshalled(params)) == Parsed(params, true) <==> Normal(params)
  {
    hide Encodable;
    hide ParseLines;
    UnmarshalIsNormal(Marshalled(params));
    if Normal(params) {
      var keys := Listing(params.Keys);
      assert forall k :: k in keys <==> k in Elements(keys);
      ParsePrinted(params, keys, map[]);
      assert map[] + Restricted(params, keys) == params;
    }
  }

  /** Normal form: re-reading the printed form of anything ever parsed loses nothing. */
  lemma ParsedFilesAreFixed(content: string)
    ensures Unmarshalled(Marshalled(Unmarshalled(content).params)) == Parsed(Unmarshalled(content).params, true)
  {
    UnmarshalIsNormal(content);
    RoundTripsExactlyWhenNormal(Unmarshalled(content).params);
  }

  // ----- the format, from the text -----

  /** The white space characters of Unicode, by code point. */
  const WHITE_SPACE: set<int> :=
    {0x9, 0xA, 0xB, 0xC, 0xD, 0x20, 0x85, 0xA0, 0x1680,
     0x2000, 0x2001, 0x2002, 0x2003, 0x2004, 0x2005, 0x2006, 0x2007, 0x2008, 0x2009, 0x200A,
     0x2028, 0x2029, 0x202F, 0x205F, 0x3000}

  /** The code point a text of one to three bytes encodes in UTF-8, if it is the encoding of one. */
  function Decoded(s: string): Option<int> {
    if |s| == 1 && s[0] as int < 0x80 then Some(s[0] as int)
    else if |s| == 2 && 0xC2 <= s[0] as int < 0xE0 && 0x80 <= s[1] as int < 0xC0 then
      Some((s[0] as int - 0xC0) * 64 + (s[1] as int - 0x80))
    else if |s| == 3 && 0xE1 <= s[0] as int < 0xF0 && 0x80 <= s[1] as int < 0xC0 && 0x80 <= s[2] as int < 0xC0 then
      Some((s[0] as int - 0xE0) * 4096 + (s[1] as int - 0x80) * 64 + (s[2] as int - 0x80))
    else None
  }

  /** `s` is one encoded white space character. */
  predicate IsSpaceRune(s: string) {
    Decoded(s).Some? && Decoded(s).value in WHITE_SPACE
  }

  lemma SpacesAreRunes(a: char, b: char, c: char)
    ensures IsSpace1(a) <==> IsSpaceRune([a])
    ensures IsSpace2(a, b) <==> IsSpaceRune([a, b])
    ensures IsSpace3(a, b, c) <==> IsSpaceRune([a, b, c])
  {
  }

  /** The space at the front of a text is one white space character. */
  lemma SpaceInFront(s: string)
    ensures SpacePrefix(s) > 0 ==> IsSpaceRune(s[..SpacePrefix(s)])
    ensures SpacePrefix(s) == 0 ==> forall n | 0 <= n <= |s| :: !IsSpaceRune(s[..n])
  {
    if |s| >= 1 {
      SpacesAreRunes(s[0], s[0], s[0]);
      assert s[..1] == [s[0]];
    }
    if |s| >= 2 {
      SpacesAreRunes(s[0], s[1], s[1]);
      assert s[..2] == [s[0], s[1]];
    }
    if |s| >= 3 {
      SpacesAreRunes(s[0], s[1], s[2]);
      assert s[..3] == [s[0], s[1], s[2]];
    }
    RunesAreShort(s);
    hide IsSpaceRune;
  }

  lemma RunesAreShort(s: string)
    ensures forall n | (0 <= n <= |s| && n > 3) || n == 0 <= |s| :: !IsSpaceRune(s[..n])
    ensures forall n | (0 <= n <= |s| && n < |s| - 3) || n == |s| :: !IsSpaceRune(s[n..])
  {
  }

  lemma SuffixIs(s: string, n: nat)
    requires 1 <= n <= 3 && n <= |s|
    ensures IsSpaceRune(s[|s| - n..]) <==>
            if n == 1 then IsSpace1(s[|s| - 1])
            else if n == 2 then IsSpace2(s[|s| - 2], s[|s| - 1])
            else IsSpace3(s[|s| - 3], s[|s| - 2], s[|s| - 1])
  {
    var l := |s|;
    if n == 1 {
      SpacesAreRunes(s[l - 1], s[l - 1], s[l - 1]);
      assert s[l - 1..] == [s[l - 1]];
    } else if n == 2 {
      SpacesAreRunes(s[l - 2], s[l - 1], s[l - 1]);
      assert s[l - 2..] == [s[l - 2], s[l - 1]];
    } else {
      SpacesAreRunes(s[l - 3], s[l - 2], s[l - 1]);
      assert s[l - 3..] == [s[l - 3], s[l - 2], s[l - 1]];
    }
    hide IsSpaceRune, IsSpace1, IsSpace2, IsSpace3;
  }

  /** And so is the space at its end. */
  lemma SpaceAtEnd(s: string)
    ensures SpaceSuffix(s) > 0 ==> IsSpaceRune(s[|s| - SpaceSuffix(s)..])
    ensures SpaceSuffix(s) == 0 ==> forall n | 0 <= n <= |s| :: !IsSpaceRune(s[n..])
  {
    RunesAreShort(s);
    hide IsSpaceRune, IsSpace1, IsSpace2, IsSpace3;
    if |s| >= 1 { SuffixIs(s, 1); }
    if |s| >= 2 { SuffixIs(s, 2); }
    if |s| >= 3 { SuffixIs(s, 3); }
  }

  function Joined(parts: seq<string>): string {
    if parts == [] then "" else parts[0] + Joined(parts[1..])
  }

  lemma {:induction false} JoinedSnoc(parts: seq<string>, last: string)
    ensures Joined(parts + [last]) == Joined(parts) + last
  {
    if parts == [] {
      assert [last][1..] == [];
    } else {
      assert (parts + [last])[1..] == parts[1..] + [last];
      JoinedSnoc(parts[1..], last);
      assert parts[0] + (Joined(parts[1..]) + last) == parts[0] + Joined(parts[1..]) + last;
    }
  }

  ghost predicate AllSpace(s: string) {
    exists runes: seq<string> :: Joined(runes) == s && forall r | r in runes :: IsSpaceRune(r)
  }

  lemma NoSpace()
    ensures AllSpace("")
  {
    assert Joined([]) == "";
  }

  lemma MoreSpace(rune: string, s: string)
    requires IsSpaceRune(rune) && AllSpace(s)
    ensures AllSpace(rune + s) && AllSpace(s + rune)
  {
    hide IsSpaceRune;
    var runes :| Joined(runes) == s && forall r | r in runes :: IsSpaceRune(r);
    JoinedSnoc(runes, rune);
    assert ([rune] + runes)[1..] == runes;
    assert Joined([rune] + runes) == rune + s && Joined(runes + [rune]) == s + rune;
  }

  lemma {:induction false} TrimmedLeft(s: string)
    ensures var n := |s| - |TrimLeft(s)|; 0 <= n && s[n..] == TrimLeft(s) && AllSpace(s[..n])
    decreases |s|
  {
    hide IsSpaceRune, AllSpace, SpacePrefix;
    NoSpace();
    SpaceInFront(s);
    var m := SpacePrefix(s);
    if m > 0 {
      TrimmedLeft(s[m..]);
      var n := |s| - |TrimLeft(s)|;
      MoreSpace(s[..m], s[m..][..n - m]);
      assert s[..n] == s[..m] + s[m..][..n - m] && s[m..][n - m..] == s[n..];
    } else {
      assert s[..0] == "";
    }
  }

  lemma {:induction false} TrimmedRight(s: string)
    ensures TrimRight(s) <= s && AllSpace(s[|TrimRight(s)|..])
    decreases |s|
  {
    hide IsSpaceRune, AllSpace, SpaceSuffix;
    NoSpace();
    SpaceAtEnd(s);
    var m := |s| - SpaceSuffix(s);
    if m < |s| {
      TrimmedRight(s[..m]);
      var n := |TrimRight(s)|;
      MoreSpace(s[m..], s[..m][n..]);
      assert s[n..] == s[..m][n..] + s[m..];
    } else {
      assert s[|s|..] == "";
    }
  }

  /** Trimming takes white space off both ends, all of it and nothing else. */
  lemma TrimSpaceSays(s: string) returns (left: string, right: string)
    ensures s == left + TrimSpace(s) + right && AllSpace(left) && AllSpace(right)
    ensures forall n | 0 <= n <= |TrimSpace(s)| :: !IsSpaceRune(TrimSpace(s)[..n]) && !IsSpaceRune(TrimSpace(s)[n..])
  {
    var l, t := TrimLeft(s), TrimSpace(s);
    TrimmedLeft(s);
    TrimmedRight(l);
    left, right := s[..|s| - |l|], l[|t|..];
    assert l == t + right && s == left + l;
    TrimSpaceTrims(s);
    SpaceInFront(t);
    SpaceAtEnd(t);
  }

  /** A text is its lines, each ended by a newline; only the last may lack it. */
  lemma {:induction false} LinesSay(s: string)
    ensures (forall l | l in Lines(s) :: '\n' !in l)
    ensures Ended(Lines(s)) == if s == "" || s[|s| - 1] == '\n' then s else s + "\n"
    decreases |s|
  {
    hide Lines, Ended;
    if s == "" {
      LinesOfNothing();
      EndedCons("", []);
    } else {
      var i := IndexOf(s, '\n');
      IndexOfFinds(s, '\n');
      LineEndsAt(s, i);
      if i < |s| {
        var line, rest := s[..i], s[i + 1..];
        LinesSay(rest);
        EndedCons(line, Lines(rest));
        assert s == line + "\n" + rest;
        assert rest != "" ==> s[|s| - 1] == rest[|rest| - 1];
      } else {
        assert s[..i] == s;
        EndedCons(s, []);
      }
    }
  }

  lemma EndedCons(line: string, rest: seq<string>)
    ensures Ended([line] + rest) == line + "\n" + Ended(rest) && Ended([]) == ""
  {
    assert ([line] + rest)[1..] == rest;
  }

  function Ended(lines: seq<string>): string {
    if lines == [] then "" else lines[0] + "\n" + Ended(lines[1..])
  }

  /** What a line that is no comment says: the trimmed text before the first `=`, and the text after it. */
  ghost predicate Says(raw: string, key: string, value: string) {
    var line := TrimSpace(DropCR(raw));
    && line != "" && line[0] != '#'
    && exists before :: '=' !in before && line == before + "=" + value && key == TrimSpace(before)
  }

  lemma ParseLineSays(raw: string)
    ensures forall key, value :: ParseLine(raw) == Some(Entry(key, value)) <==> Says(raw, key, value)
  {
    hide TrimSpace, DropCR;
    var line := TrimSpace(DropCR(raw));
    var i := IndexOf(line, '=');
    IndexOfFinds(line, '=');
    assert i < |line| ==> line == line[..i] + "=" + line[i + 1..];
    forall before, value | '=' !in before && line == before + "=" + value
      ensures i == |before| && before == line[..i] && value == line[i + 1..]
    {
      assert line[..|before|] == before;
      FirstIndex(line, '=', |before|);
    }
  }

  /** The i-th line is the last one read that says something of this key. */
  ghost predicate LastSaid(lines: seq<string>, key: string, i: int, value: string) {
    && 0 <= i < |lines| && Says(lines[i], key, value)
    && forall j, v | i < j < |lines| :: !Says(lines[j], key, v)
  }

  lemma AbsorbSays(acc: map<string, string>, raw: string, key: string)
    ensures forall value | Says(raw, key, value) :: Get(Absorb(acc, raw), key) == Some(value)
    ensures (forall value :: !Says(raw, key, value)) ==> Get(Absorb(acc, raw), key) == Get(acc, key)
  {
    hide ParseLine, Says;
    ParseLineSays(raw);
    if ParseLine(raw).Some? {
      assert ParseLine(raw) == Some(Entry(ParseLine(raw).value.key, ParseLine(raw).value.value));
    }
  }

  lemma LastSaidLater(lines: seq<string>, key: string, i: int, value: string)
    requires lines != [] && LastSaid(lines, key, i, value)
    ensures i > 0 ==> LastSaid(lines[1..], key, i - 1, value)
    ensures i == 0 ==> Says(lines[0], key, value) && forall j, v | 0 <= j < |lines| - 1 :: !Says(lines[1..][j], key, v)
  {
    hide Says;
    assert forall j | 0 <= j < |lines| - 1 :: lines[1..][j] == lines[j + 1];
  }

  lemma {:induction false} ParseLinesSay(lines: seq<string>, acc: map<string, string>, n: nat, key: string)
    requires n <= |lines| && (forall i | 0 <= i < n :: |lines[i]| < 65536) && (n < |lines| ==> |lines[n]| >= 65536)
    ensures var p := ParseLines(lines, acc);
            && (p.complete <==> n == |lines|)
            && (forall i, value | LastSaid(lines[..n], key, i, value) :: Get(p.params, key) == Some(value))
            && ((forall i, value | 0 <= i < n :: !Says(lines[i], key, value)) ==> Get(p.params, key) == Get(acc, key))
    decreases n
  {
    hide Says, Absorb, LastSaid;
    if n > 0 {
      var rest := lines[1..];
      AbsorbSays(acc, lines[0], key);
      ParseLinesSay(rest, Absorb(acc, lines[0]), n - 1, key);
      assert forall i | 0 <= i < n - 1 :: rest[i] == lines[i + 1];
      assert rest[..n - 1] == lines[..n][1..];
      assert forall j | 0 <= j < n - 1 :: rest[..n - 1][j] == rest[j];
      forall i, value | LastSaid(lines[..n], key, i, value)
        ensures Get(ParseLines(lines, acc).params, key) == Some(value)
      {
        LastSaidLater(lines[..n], key, i, value);
        LastSaidBounds(lines[..n], key, i, value);
      }
    } else {
      forall i, value | LastSaid(lines[..n], key, i, value) ensures false {
        LastSaidBounds(lines[..n], key, i, value);
      }
    }
  }

  lemma LastSaidBounds(lines: seq<string>, key: string, i: int, value: string)
    requires LastSaid(lines, key, i, value)
    ensures 0 <= i < |lines|
  {
  }

  /**
   * Reading a file: lines are read until one is too long for the scanner, and
   * each key has the value of the last line read that says something of it.
   */
  lemma UnmarshalSays(content: string, n: nat, key: string)
    requires n <= |Lines(content)| && (forall i | 0 <= i < n :: |Lines(content)[i]| < 65536)
    requires n < |Lines(content)| ==> |Lines(content)[n]| >= 65536
    ensures var p, lines := Unmarshalled(content), Lines(content);
            && (p.complete <==> n == |lines|)
            && (forall i, value | LastSaid(lines[..n], key, i, value) :: key in p.params && p.params[key] == value)
            && ((forall i, value | 0 <= i < n :: !Says(lines[i], key, value)) ==> key !in p.params)
  {
    ParseLinesSay(Lines(content), map[], n, key);
  }

  function Get(m: map<string, string>, k: string): Option<string> {
    if k in m then Some(m[k]) else None
  }

  /** Printing: one line for each key, in increasing order. */
  lemma MarshalSays(params: map<string, string>, keys: seq<string>)
    requires Lists(params.Keys, keys)
    ensures forall k | k in keys :: k in params
    ensures Marshalled(params) ==
            Ended(seq(|keys|, i requires 0 <= i < |keys| && keys[i] in params => keys[i] + "=" + params[keys[i]]))
  {
    ListingUnique(params.Keys, keys, Listing(params.Keys));
    assert forall k | k in keys :: k in Elements(keys);
    PrintedLines(params, keys);
  }

  lemma {:induction false} PrintedLines(params: map<string, string>, keys: seq<string>)
    requires forall k | k in keys :: k in params
    ensures Printed(params, keys) ==
            Ended(seq(|keys|, i requires 0 <= i < |keys| && keys[i] in params => keys[i] + "=" + params[keys[i]]))
  {
    var lines := seq(|keys|, i requires 0 <= i < |keys| && keys[i] in params => keys[i] + "=" + params[keys[i]]);
    if keys != [] {
      var rest := keys[1..];
      PrintedLines(params, rest);
      assert lines[1..] ==
             seq(|rest|, i requires 0 <= i < |rest| && rest[i] in params => rest[i] + "=" + params[rest[i]]);
    }
  }

  // ----- mappers and Apply -----

  datatype Mapper = Replacement(values: map<string, string>) | Values(values: map<string, string>)

  /** Go's map read: a missing key reads as the empty string. */
  function Lookup(params: map<string, string>, k: string): string {
    if k in params then params[k] else ""
  }

  function Mapped(params: map<string, string>, m: Mapper): map<string, string> {
    match m
    case Replacement(values) => map k | k in params :: if k in values then values[k] else params[k]
    case Values(values) => params + (map k | k in values && Lookup(params, k) != values[k] :: values[k])
  }

  /** A parsed file under transformation. */
  class Params {
    var entries: map<string, string>

    constructor (entries: map<string, string>)
      ensures this.entries == entries
    {
      this.entries := entries;
    }

    method Replace(values: map<string, string>) returns (changed: bool)
      modifies this
      ensures entries == Mapped(old(entries), Replacement(values))
      ensures changed <==> entries != old(entries)
    {
      changed := false;
      var pending := entries.Keys;
      while pending != {}
        invariant pending <= entries.Keys == old(entries).Keys
        invariant forall k | k in entries ::
                    entries[k] == if k in pending || k !in values then old(entries)[k] else values[k]
        invariant changed <==> entries != old(entries)
        decreases pending
      {
        var k :| k in pending;
        pending := pending - {k};
        if k !in values || entries[k] == values[k] {
          continue;
        }
        entries := entries[k := values[k]];
        assert entries[k] != old(entries)[k];
        changed := true;
      }
    }

    method Merge(values: map<string, string>) returns (changed: bool)
      modifies this
      ensures entries == Mapped(old(entries), Values(values))
      ensures changed <==> entries != old(entries)
    {
      ghost var before := entries;
      changed := false;
      var pending := values.Keys;
      while pending != {}
        invariant pending <= values.Keys
        invariant forall k | k !in values || k in pending ::
                    (k in entries <==> k in before) && (k in before ==> entries[k] == before[k])
        invariant forall k | k in values && k !in pending ::
                    (k in entries <==> k in before || values[k] != "") && Lookup(entries, k) == values[k]
        invariant changed <==> exists k | k in values :: k !in pending && Lookup(before, k) != values[k]
        decreases pending
      {
        var k :| k in pending;
        pending := pending - {k};
        assert Lookup(entries, k) == Lookup(before, k);
        if Lookup(entries, k) != values[k] {
          entries := entries[k := values[k]];
          changed := true;
        }
      }
      MergedEntries(before, values, entries);
      assert changed ==> exists k :: Lookup(entries, k) != Lookup(before, k);
    }

    method Run(m: Mapper) returns (changed: bool)
      modifies this
      ensures entries == Mapped(old(entries), m)
      ensures changed <==> entries != old(entries)
    {
      match m
      case Replacement(values) => changed := Replace(values);
      case Values(values) => changed := Merge(values);
    }
  }

  /** What the loop over the values leaves. */
  lemma MergedEntries(before: map<string, string>, values: map<string, string>, after: map<string, string>)
    requires forall k | k !in values :: (k in after <==> k in before) && (k in before ==> after[k] == before[k])
    requires forall k | k in values :: (k in after <==> k in before || values[k] != "") && Lookup(after, k) == values[k]
    ensures after == Mapped(before, Values(values))
  {
    forall k ensures k in after <==> k in Mapped(before, Values(values)) {}
  }

  function MappedAll(params: map<string, string>, ms: seq<Mapper>): map<string, string>
    decreases |ms|
  {
    if ms == [] then params else MappedAll(Mapped(params, ms[0]), ms[1..])
  }

  /** What a mapper does to one key: a replacement never adds a key, and a value is not added when it is empty. */
  lemma MappedSays(params: map<string, string>, values: map<string, string>, k: string)
    ensures Get(Mapped(params, Replacement(values)), k) ==
            if k in params && k in values then Some(values[k]) else Get(params, k)
    ensures Get(Mapped(params, Values(values)), k) ==
            if k in values && (k in params || values[k] != "") then Some(values[k]) else Get(params, k)
  {
  }

  /** Mappers act one after the other, and any of them makes the file change. */
  lemma {:induction false} MappersSay(params: map<string, string>, ms: seq<Mapper>)
    ensures MappedAll(params, []) == params && !AnyChange(params, [])
    ensures ms != [] ==>
              var front, last := ms[..|ms| - 1], ms[|ms| - 1];
              var before := MappedAll(params, front);
              && MappedAll(params, ms) == Mapped(before, last)
              && (AnyChange(params, ms) <==> AnyChange(params, front) || Mapped(before, last) != before)
    decreases |ms|
  {
    if |ms| > 1 {
      hide Mapped;
      MappersSay(Mapped(params, ms[0]), ms[1..]);
      assert ms[1..][..|ms| - 2] == ms[..|ms| - 1][1..];
    }
  }

  predicate AnyChange(params: map<string, string>, ms: seq<Mapper>)
    decreases |ms|
  {
    ms != [] && (Mapped(params, ms[0]) != params || AnyChange(Mapped(params, ms[0]), ms[1..]))
  }

  /** A file of the file system; None when it does not exist. */
  class File {
    var content: Option<string>

    constructor (content: Option<string>)
      ensures this.content == content
    {
      this.content := content;
    }
  }

  method Apply(file: File, mappers: seq<Mapper>) returns (ok: bool)
    modifies file
    ensures old(file.content).None? ==> ok && file.content.None?
    ensures old(file.content).Some? ==>
              var p := Unmarshalled(old(file.content).value);
              && ok == p.complete
              && file.content == if ok && AnyChange(p.params, mappers)
                                 then Some(Marshalled(MappedAll(p.params, mappers)))
                                 else old(file.content)
  {
    if file.content.None? {
      return true;
    }
    var parsed := Unmarshal(file.content.value);
    if !parsed.complete {
      return false;
    }
    var params := new Params(parsed.params);
    var changed := false;
    for i := 0 to |mappers|
      invariant file.content == old(file.content)
      invariant MappedAll(params.entries, mappers[i..]) == MappedAll(parsed.params, mappers)
      invariant (changed || AnyChange(params.entries, mappers[i..])) == AnyChange(parsed.params, mappers)
    {
      assert mappers[i..][0] == mappers[i] && mappers[i..][1..] == mappers[i + 1..];
      var c := params.Run(mappers[i]);
      if c {
        changed := true;
      }
    }
    if !changed {
      return true;
    }
    var data := Marshal(params.entries);
    file.content := Some(data);
    return true;
  }

  lemma {:induction false} NoChangeMapsNothing(params: map<string, string>, ms: seq<Mapper>)
    requires !AnyChange(params, ms)
    ensures MappedAll(params, ms) == params
  {
    if ms != [] {
      NoChangeMapsNothing(params, ms[1..]);
    }
  }

  /** The content `Apply` leaves when the file parses. */
  ghost function Rewritten(content: string, ms: seq<Mapper>): string {
    var p := Unmarshalled(content).params;
    if AnyChange(p, ms) then Marshalled(MappedAll(p, ms)) else content
  }

  /**
   * Re-reading the file after `Apply` gives the mapped parameters exactly when
   * the mapped parameters are normal: an injected value with a newline or a
   * trailing space, or a key with `=`, is the only way to lose anything.
   */
  lemma ApplyIsReadBackExactlyWhen(content: string, ms: seq<Mapper>)
    requires Unmarshalled(content).complete
    ensures var mapped := MappedAll(Unmarshalled(content).params, ms);
            Unmarshalled(Rewritten(content, ms)) == Parsed(mapped, true) <==> Normal(mapped)
  {
    var p := Unmarshalled(content).params;
    if AnyChange(p, ms) {
      RoundTripsExactlyWhenNormal(MappedAll(p, ms));
    } else {
      NoChangeMapsNothing(p, ms);
      UnmarshalIsNormal(content);
    }
  }

  /** `Values` adds every pair except an empty value for a key the file lacks. */
  lemma ValuesMergesExactlyWhen(params: map<string, string>, values: map<string, string>)
    ensures Mapped(params, Values(values)) == params + values
       <==> forall k | k in values && k !in params :: values[k] != ""
  {
    var m := Mapped(params, Values(values));
    if k :| k in values && k !in params && values[k] == "" {
      assert k !in m && k in params + values;
    } else {
      forall k | k in values ensures k in m && m[k] == values[k] {}
      assert m.Keys == (params + values).Keys;
    }
  }
}

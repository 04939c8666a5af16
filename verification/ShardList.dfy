/** The SHARD_LIST printer and parser: Shard.String of internal/model/model.go and
    parseShards of internal/reconciler/config.go. */
module ShardList {
  import opened Model

  /** Shard.String. */
  function Print(s: Shard): string {
    if s.ratingBand != "" then s.region + "/" + s.mode + "/" + s.ratingBand
    else s.region + "/" + s.mode
  }

  // ---- the string functions of the Go library -----------------------------------------

  /** unicode.IsSpace. */
  predicate IsSpace(c: char) {
    || c in "\t\n\r " || c == '\U{000B}' || c == '\U{000C}'
    || c == '\U{0085}' || c == '\U{00A0}' || c == '\U{1680}'
    || '\U{2000}' <= c <= '\U{200A}' || c == '\U{2028}' || c == '\U{2029}'
    || c == '\U{202F}' || c == '\U{205F}' || c == '\U{3000}'
  }

  function Leading(s: string): (i: nat)
    ensures i <= |s| && (i < |s| ==> !IsSpace(s[i]))
  {
    if s != "" && IsSpace(s[0]) then 1 + Leading(s[1..]) else 0
  }

  function Trailing(s: string): (i: nat)
    ensures i <= |s| && (i < |s| ==> !IsSpace(s[|s| - 1 - i]))
  {
    if s != "" && IsSpace(s[|s| - 1]) then 1 + Trailing(s[..|s| - 1]) else 0
  }

  function TrimSpace(s: string): (r: string)
    ensures r == "" || (!IsSpace(r[0]) && !IsSpace(r[|r| - 1]))
    ensures forall c :: c in r ==> c in s
  {
    var t := s[Leading(s)..];
    assert forall c :: c in t ==> c in s;
    t[..|t| - Trailing(t)]
  }

  /** The position of the first sep, or the length. */
  function Index(s: string, sep: char): (i: nat)
    ensures i <= |s| && (forall k :: 0 <= k < i ==> s[k] != sep) && (i < |s| ==> s[i] == sep)
  {
    if s == "" || s[0] == sep then 0 else 1 + Index(s[1..], sep)
  }

  function Split(s: string, sep: char): (parts: seq<string>)
    ensures parts != []
    ensures forall part :: part in parts ==> sep !in part
    decreases |s|
  {
    var i := Index(s, sep);
    if i == |s| then [s] else [s[..i]] + Split(s[i + 1..], sep)
  }

  /** strings.SplitN(s, sep, 3). */
  function SplitN3(s: string, sep: char): (parts: seq<string>) {
    var i := Index(s, sep);
    if i == |s| then [s]
    else
      var rest := s[i + 1..];
      var j := Index(rest, sep);
      if j == |rest| then [s[..i], rest] else [s[..i], rest[..j], rest[j + 1..]]
  }

  function Join(parts: seq<string>, sep: char): string {
    if parts == [] then ""
    else if |parts| == 1 then parts[0]
    else parts[0] + [sep] + Join(parts[1..], sep)
  }

  // ---- the parser ----------------------------------------------------------------------

  function ParseEntry(entry: string): Option<Shard> {
    var parts := SplitN3(TrimSpace(entry), '/');
    if |parts| != 3 || parts[0] == "" || parts[1] == "" || parts[2] == "" then None
    else Some(Shard(parts[0], parts[1], parts[2]))
  }

  /** The shards of the first i entries, in order; those that do not parse are skipped. */
  function Parsed(entries: seq<string>, i: nat): seq<Shard>
    requires i <= |entries|
  {
    if i == 0 then []
    else
      match ParseEntry(entries[i - 1])
      case None => Parsed(entries, i - 1)
      case Some(s) => Parsed(entries, i - 1) + [s]
  }

  function ParseList(list: string): seq<Shard> {
    Parsed(Split(list, ','), |Split(list, ',')|)
  }

  method ParseShards(list: string) returns (shards: seq<Shard>)
    ensures shards == ParseList(list)
  {
    shards := [];
    var entries := Split(list, ',');
    for k := 0 to |entries|
      invariant shards == Parsed(entries, k)
    {
      var parts := SplitN3(TrimSpace(entries[k]), '/');
      if |parts| != 3 || parts[0] == "" || parts[1] == "" || parts[2] == "" {
        continue;
      }
      shards := shards + [Shard(parts[0], parts[1], parts[2])];
    }
  }

  // ---- round trip ------------------------------------------------------------------------

  /** What a shard must be like to survive printing and parsing. */
  predicate Printable(s: Shard) {
    && s.region != "" && s.mode != "" && s.ratingBand != ""
    && '/' !in s.region && '/' !in s.mode
    && ',' !in s.region && ',' !in s.mode && ',' !in s.ratingBand
    && !IsSpace(s.region[0]) && !IsSpace(s.ratingBand[|s.ratingBand| - 1])
  }

  function PrintAll(shards: seq<Shard>): (entries: seq<string>)
    ensures |entries| == |shards|
    ensures forall k :: 0 <= k < |shards| ==> entries[k] == Print(shards[k])
  {
    seq(|shards|, k requires 0 <= k < |shards| => Print(shards[k]))
  }

  lemma IndexOfPrefix(a: string, sep: char, b: string)
    requires sep !in a
    ensures Index(a + [sep] + b, sep) == |a|
  {
    var s := a + [sep] + b;
    assert s[|a|] == sep && forall k :: 0 <= k < |a| ==> s[k] == a[k] && a[k] in a;
  }

  lemma IndexOfAll(a: string, sep: char)
    requires sep !in a
    ensures Index(a, sep) == |a|
  {
    assert forall k :: 0 <= k < |a| ==> a[k] in a;
  }

  lemma {:induction false} SplitJoin(parts: seq<string>, sep: char)
    requires parts != [] && forall part :: part in parts ==> sep !in part
    ensures Split(Join(parts, sep), sep) == parts
  {
    if |parts| == 1 {
      IndexOfAll(parts[0], sep);
      assert parts == [parts[0]];
    } else {
      var tail := Join(parts[1..], sep);
      IndexOfPrefix(parts[0], sep, tail);
      var s := parts[0] + [sep] + tail;
      assert s[..|parts[0]|] == parts[0] && s[|parts[0]| + 1..] == tail;
      SplitJoin(parts[1..], sep);
      assert parts == [parts[0]] + parts[1..];
    }
  }

  lemma TrimNothing(s: string)
    requires s != "" && !IsSpace(s[0]) && !IsSpace(s[|s| - 1])
    ensures TrimSpace(s) == s
  {
  }

  predicate AllSpaces(s: string) {
    forall c :: c in s ==> IsSpace(c)
  }

  lemma {:induction false} LeadingIs(lead: string, s: string)
    requires AllSpaces(lead) && (s != "" ==> !IsSpace(s[0]))
    ensures Leading(lead + s) == |lead|
  {
    if lead == "" {
      assert lead + s == s;
    } else {
      assert (lead + s)[0] == lead[0] && lead[0] in lead;
      assert (lead + s)[1..] == lead[1..] + s;
      LeadingIs(lead[1..], s);
    }
  }

  lemma {:induction false} TrailingIs(s: string, trail: string)
    requires AllSpaces(trail) && (s != "" ==> !IsSpace(s[|s| - 1]))
    ensures Trailing(s + trail) == |trail|
  {
    if trail == "" {
      assert s + trail == s;
    } else {
      var k := |trail| - 1;
      assert (s + trail)[|s + trail| - 1] == trail[k] && trail[k] in trail;
      assert (s + trail)[..|s + trail| - 1] == s + trail[..k];
      TrailingIs(s, trail[..k]);
    }
  }

  /** Trimming takes away the spaces around a text, and nothing else. */
  lemma TrimIsExact(lead: string, s: string, trail: string)
    requires AllSpaces(lead) && AllSpaces(trail) && s != "" && !IsSpace(s[0]) && !IsSpace(s[|s| - 1])
    ensures TrimSpace(lead + s + trail) == s
  {
    LeadingIs(lead, s + trail);
    TrailingIs(s, trail);
    assert lead + s + trail == lead + (s + trail);
    assert (lead + (s + trail))[|lead|..] == s + trail;
    assert (s + trail)[..|s|] == s;
  }

  /** What counts as a space: the usual ones do, and no printable ASCII character does. */
  lemma SpacesAre(c: char)
    ensures c in " \t\n\r" ==> IsSpace(c)
    ensures '!' <= c <= '~' ==> !IsSpace(c)
  {
  }

  lemma CutAt(a: string, sep: char, rest: string)
    requires sep !in a
    ensures var s := a + [sep] + rest;
      Index(s, sep) == |a| && |a| < |s| && s[..|a|] == a && s[|a| + 1..] == rest
  {
    IndexOfPrefix(a, sep, rest);
  }

  lemma SplitThree(a: string, b: string, c: string, sep: char)
    requires sep !in a && sep !in b
    ensures SplitN3(a + [sep] + b + [sep] + c, sep) == [a, b, c]
  {
    hide Index;
    var rest := b + [sep] + c;
    var s := a + [sep] + rest;
    assert s == a + [sep] + b + [sep] + c;
    CutAt(a, sep, rest);
    CutAt(b, sep, c);
  }

  lemma PrintedParses(s: Shard)
    requires Printable(s)
    ensures ParseEntry(Print(s)) == Some(s) && ',' !in Print(s)
  {
    hide SplitN3, TrimSpace, IsSpace;
    assert Print(s) == s.region + ['/'] + s.mode + ['/'] + s.ratingBand;
    TrimNothing(Print(s));
    SplitThree(s.region, s.mode, s.ratingBand, '/');
  }

  lemma Suffix(s: string, k: nat)
    requires k <= |s|
    ensures forall c :: c in s[k..] ==> c in s
    ensures s[k..] != "" ==> s[k..][|s| - k - 1] == s[|s| - 1]
  {
  }

  /** A shard without a band is printed as region and mode, which does not parse. */
  lemma BandlessDoesNotParse(s: Shard)
    requires s.ratingBand == "" && '/' !in s.region && '/' !in s.mode
    requires s.region != "" && !IsSpace(s.region[0]) && s.mode != "" && !IsSpace(s.mode[|s.mode| - 1])
    ensures Print(s) == s.region + ['/'] + s.mode && ParseEntry(Print(s)).None?
  {
    hide IsSpace;
    TrimNothing(Print(s));
    CutAt(s.region, '/', s.mode);
    IndexOfAll(s.mode, '/');
  }

  /** Spaces around an entry do not matter. */
  lemma PaddedParses(lead: string, s: Shard, trail: string)
    requires AllSpaces(lead) && AllSpaces(trail) && Printable(s)
    ensures ParseEntry(lead + Print(s) + trail) == Some(s)
  {
    PrintedParses(s);
    PrintedEnds(s);
    TrimIsExact(lead, Print(s), trail);
    TrimNothing(Print(s));
  }

  lemma PrintedEnds(s: Shard)
    requires Printable(s)
    ensures var p := Print(s); p != "" && !IsSpace(p[0]) && !IsSpace(p[|p| - 1])
    ensures Print(s) == s.region + ['/'] + s.mode + ['/'] + s.ratingBand
  {
    hide IsSpace;
    assert Print(s) == s.region + ['/'] + s.mode + ['/'] + s.ratingBand;
  }

  /** An entry parses to a shard exactly if, without the spaces around it, it is the region, the
      mode and the band between slashes, none of them empty and the first two without a slash. */
  lemma ParsesExactlyIf(entry: string, s: Shard)
    ensures ParseEntry(entry) == Some(s) <==>
      && s.region != "" && s.mode != "" && s.ratingBand != "" && '/' !in s.region && '/' !in s.mode
      && TrimSpace(entry) == s.region + ['/'] + s.mode + ['/'] + s.ratingBand
  {
    hide TrimSpace;
    if ParseEntry(entry) == Some(s) {
      ThreeParts(TrimSpace(entry), '/');
      JoinedParts(TrimSpace(entry), '/');
    } else if s.region != "" && s.mode != "" && s.ratingBand != "" && '/' !in s.region && '/' !in s.mode
      && TrimSpace(entry) == s.region + ['/'] + s.mode + ['/'] + s.ratingBand {
      SplitThree(s.region, s.mode, s.ratingBand, '/');
    }
  }

  lemma CutBack(s: string, i: nat)
    requires i < |s|
    ensures s == s[..i] + [s[i]] + s[i + 1..]
  {
  }

  lemma Reassociate(a: string, sep: string, b: string, c: string)
    ensures a + sep + (b + sep + c) == a + sep + b + sep + c
  {
  }

  /** Where the three parts were cut. */
  lemma CutPoints(s: string, sep: char) returns (i: nat, j: nat, parts: seq<string>)
    requires |SplitN3(s, sep)| == 3
    ensures parts == SplitN3(s, sep) && i < |s| && s[i] == sep && j < |s[i + 1..]| && s[i + 1..][j] == sep
    ensures parts[0] == s[..i] && parts[1] == s[i + 1..][..j] && parts[2] == s[i + 1..][j + 1..]
  {
    i := Index(s, sep);
    j, parts := Index(s[i + 1..], sep), SplitN3(s, sep);
  }

  lemma JoinedParts(s: string, sep: char)
    requires |SplitN3(s, sep)| == 3
    ensures var parts := SplitN3(s, sep); s == parts[0] + [sep] + parts[1] + [sep] + parts[2]
  {
    hide SplitN3;
    var i, j, parts := CutPoints(s, sep);
    var rest := s[i + 1..];
    CutBack(s, i);
    CutBack(rest, j);
    Reassociate(parts[0], [sep], parts[1], parts[2]);
  }

  lemma Prefix(s: string, k: nat)
    requires k <= |s|
    ensures forall c :: c in s[..k] ==> c in s
    ensures s[..k] != "" ==> s[..k][0] == s[0]
  {
  }

  lemma ThreeParts(s: string, sep: char)
    requires |SplitN3(s, sep)| == 3
    ensures var parts := SplitN3(s, sep);
      && sep !in parts[0] && sep !in parts[1]
      && (parts[0] != "" ==> parts[0][0] == s[0])
      && (parts[2] != "" ==> parts[2][|parts[2]| - 1] == s[|s| - 1])
      && (forall c :: c in parts[0] || c in parts[1] || c in parts[2] ==> c in s)
  {
    var i := Index(s, sep);
    var rest := s[i + 1..];
    var j := Index(rest, sep);
    var parts := SplitN3(s, sep);
    assert parts[0] == s[..i] && parts[1] == rest[..j] && parts[2] == rest[j + 1..];
    hide Index, SplitN3;
    Suffix(s, i + 1);
    Suffix(rest, j + 1);
    Prefix(s, i);
    Prefix(rest, j);
  }

  /** Whatever the parser accepts is printable. */
  lemma ParsedIsPrintable(entry: string)
    requires ParseEntry(entry).Some? && ',' !in entry
    ensures Printable(ParseEntry(entry).value)
  {
    hide SplitN3, IsSpace, TrimSpace;
    var s, shard := TrimSpace(entry), ParseEntry(entry).value;
    ThreeParts(s, '/');
    assert SplitN3(s, '/') == [shard.region, shard.mode, shard.ratingBand];
    assert shard.region[0] in s;
  }

  lemma {:induction false} AllParsedArePrintable(entries: seq<string>, i: nat)
    requires i <= |entries| && forall entry :: entry in entries ==> ',' !in entry
    ensures forall s :: s in Parsed(entries, i) ==> Printable(s)
  {
    hide Printable, ParseEntry;
    if i > 0 {
      AllParsedArePrintable(entries, i - 1);
      if ParseEntry(entries[i - 1]).Some? {
        ParsedIsPrintable(entries[i - 1]);
      }
    }
  }

  lemma {:induction false} AllPrintedParse(shards: seq<Shard>, i: nat)
    requires i <= |shards| && forall s :: s in shards ==> Printable(s)
    ensures Parsed(PrintAll(shards), i) == shards[..i]
  {
    hide ParseEntry, Print, Printable;
    if i > 0 {
      AllPrintedParse(shards, i - 1);
      PrintedParses(shards[i - 1]);
    }
  }

  lemma PrintedHaveNoComma(shards: seq<Shard>)
    requires forall s :: s in shards ==> Printable(s)
    ensures forall entry :: entry in PrintAll(shards) ==> ',' !in entry
  {
    forall k | 0 <= k < |shards|
      ensures ',' !in PrintAll(shards)[k]
    {
      PrintedParses(shards[k]);
    }
  }

  /** Printing a list of shards with commas between them and parsing it gives the list
      back if and only if every shard in it is printable. */
  lemma RoundTripIff(shards: seq<Shard>)
    ensures ParseList(Join(PrintAll(shards), ',')) == shards <==> forall s :: s in shards ==> Printable(s)
  {
    var list := Join(PrintAll(shards), ',');
    if forall s :: s in shards ==> Printable(s) {
      PrintedHaveNoComma(shards);
      ListOfEntries(PrintAll(shards));
      AllPrintedParse(shards, |shards|);
      assert shards[..|shards|] == shards;
    }
    AllParsedArePrintable(Split(list, ','), |Split(list, ',')|);
  }

  /** Parsing a list is parsing its entries one by one. */
  lemma ListOfEntries(entries: seq<string>)
    requires forall entry :: entry in entries ==> ',' !in entry
    ensures ParseList(Join(entries, ',')) == Parsed(entries, |entries|)
  {
    if entries == [] {
      assert Split("", ',') == [""];
      assert Parsed([""], 0) == [];
    } else {
      SplitJoin(entries, ',');
    }
  }

  lemma {:induction false} ParsedConcat(a: seq<string>, b: seq<string>, j: nat)
    requires j <= |b|
    ensures Parsed(a + b, |a| + j) == Parsed(a, |a|) + Parsed(b, j)
  {
    hide ParseEntry;
    if j == 0 {
      ParsedPrefix(a, b, |a|);
    } else {
      ParsedConcat(a, b, j - 1);
    }
  }

  lemma {:induction false} ParsedPrefix(a: seq<string>, b: seq<string>, i: nat)
    requires i <= |a|
    ensures Parsed(a + b, i) == Parsed(a, i)
  {
    hide ParseEntry;
    if i > 0 {
      ParsedPrefix(a, b, i - 1);
    }
  }

  /** An entry that does not parse changes nothing, wherever it stands between the commas. */
  lemma MalformedIsSkipped(before: seq<string>, bad: string, after: seq<string>)
    requires ParseEntry(bad).None?
    requires forall entry :: entry in before + [bad] + after ==> ',' !in entry
    ensures ParseList(Join(before + [bad] + after, ',')) == ParseList(Join(before + after, ','))
  {
    hide ParseEntry, ParseList, Join;
    assert forall entry :: entry in before + after ==> entry in before + [bad] + after;
    ListOfEntries(before + [bad] + after);
    ListOfEntries(before + after);
    ParsedConcat(before + [bad], after, |after|);
    ParsedConcat(before, [bad], 1);
    ParsedConcat(before, after, |after|);
    assert Parsed([bad], 1) == Parsed([bad], 0) == [];
  }
}

/** Reading how long a site list may be cached from its Cache-Control header (RFC 9111, section 5.2.2). */
module CacheControl {
  import opened Wrappers
  import opened Http
  import Decimal

  const ONE_HOUR: nat := 3600

  // ---------- splitting and trimming ----------

  function Split(s: string): (parts: seq<string>)
    ensures parts != []
  {
    if s == [] then [""]
    else
      var rest := Split(s[1..]);
      if s[0] == ',' then [""] + rest else [[s[0]] + rest[0]] + rest[1..]
  }

  function Join(parts: seq<string>): string {
    if parts == [] then "" else if |parts| == 1 then parts[0] else parts[0] + "," + Join(parts[1..])
  }

  predicate NoComma(part: string) {
    forall i :: 0 <= i < |part| ==> part[i] != ','
  }

  predicate IsBlank(c: char) {
    c == ' ' || c == '\t'
  }

  predicate AllBlank(s: string) {
    forall i :: 0 <= i < |s| ==> IsBlank(s[i])
  }

  function TrimStart(s: string): string {
    if s != [] && IsBlank(s[0]) then TrimStart(s[1..]) else s
  }

  function TrimEnd(s: string): string {
    if s != [] && IsBlank(s[|s| - 1]) then TrimEnd(s[..|s| - 1]) else s
  }

  function Trim(s: string): string {
    TrimEnd(TrimStart(s))
  }

  // ---------- the reader ----------

  function StripPrefix(s: string, prefix: string): Option<string> {
    if prefix <= s then Some(s[|prefix|..]) else None
  }

  /** The lifetime one trimmed directive asks for, if it is recognised.  Anything that merely starts with
      `no-cache` or `no-store` is; a `max-age` whose number does not parse is not. */
  function DirectiveLifetime(s: string): Option<nat> {
    if StripPrefix(s, "no-cache").Some? || StripPrefix(s, "no-store").Some? then Some(0)
    else
      match StripPrefix(s, "max-age=")
      case Some(number) => Decimal.Parsed(number)
      case None => None
  }

  function FindLifetime(parts: seq<string>): Option<nat> {
    if parts == [] then None
    else
      var first := DirectiveLifetime(Trim(parts[0]));
      if first.Some? then first else FindLifetime(parts[1..])
  }

  /** `header` is the value of the response's Cache-Control header, if it has one. */
  function CacheFor(header: Option<string>): nat {
    var found := if header.Some? && IsText(header.value) then FindLifetime(Split(header.value)) else None;
    if found.Some? then found.value else ONE_HOUR
  }

  // ---------- what the reader means ----------

  /** The split is the one and only way to write `s` as comma-free parts joined by commas. */
  lemma {:induction false} SplitIsInverseOfJoin(s: string)
    ensures Join(Split(s)) == s
    ensures forall i :: 0 <= i < |Split(s)| ==> NoComma(Split(s)[i])
  {
    if s != [] {
      SplitIsInverseOfJoin(s[1..]);
      var rest := Split(s[1..]);
      if s[0] == ',' {
        assert Split(s)[1..] == rest;
      } else {
        assert Split(s)[1..] == rest[1..];
      }
    }
  }

  lemma {:induction false} JoinIsInverseOfSplit(parts: seq<string>)
    requires parts != []
    requires forall i :: 0 <= i < |parts| ==> NoComma(parts[i])
    ensures Split(Join(parts)) == parts
  {
    if |parts| == 1 {
      SplitPlain(parts[0]);
    } else {
      JoinIsInverseOfSplit(parts[1..]);
      SplitAtComma(parts[0], Join(parts[1..]));
      assert parts[0] + "," + Join(parts[1..]) == parts[0] + ("," + Join(parts[1..]));
    }
  }

  lemma {:induction false} SplitPlain(s: string)
    requires NoComma(s)
    ensures Split(s) == [s]
  {
    if s != [] {
      SplitPlain(s[1..]);
      assert [s[0]] + s[1..] == s;
    }
  }

  lemma {:induction false} SplitAtComma(a: string, b: string)
    requires NoComma(a)
    ensures Split(a + ("," + b)) == [a] + Split(b)
  {
    var s := a + ("," + b);
    if a == [] {
      assert s[1..] == b;
    } else {
      assert s[1..] == a[1..] + ("," + b);
      SplitAtComma(a[1..], b);
      assert [a[0]] + a[1..] == a;
      assert ([a[1..]] + Split(b))[1..] == Split(b);
    }
  }

  /** Directive `k` of the header is the first one recognised, and asks for `lifetime`. */
  predicate FirstRecognised(parts: seq<string>, k: nat, lifetime: nat) {
    && k < |parts|
    && DirectiveLifetime(Trim(parts[k])) == Some(lifetime)
    && forall j :: 0 <= j < k ==> DirectiveLifetime(Trim(parts[j])) == None
  }

  ghost predicate Recognises(parts: seq<string>, lifetime: nat) {
    exists k: nat :: FirstRecognised(parts, k, lifetime)
  }

  /** The lifetime read is that of the first recognised directive, and one hour if there is none. */
  lemma CacheForIsFirstMatch(header: Option<string>, lifetime: nat)
    ensures CacheFor(header) == lifetime <==>
            if header.Some? && IsText(header.value) && (exists l: nat :: Recognises(Split(header.value), l))
            then Recognises(Split(header.value), lifetime)
            else lifetime == ONE_HOUR
  {
    if header.Some? && IsText(header.value) {
      var parts := Split(header.value);
      forall l: nat ensures Recognises(parts, l) <==> FindLifetime(parts) == Some(l) {
        FindIsFirstMatch(parts, l);
      }
      if FindLifetime(parts).Some? {
        assert Recognises(parts, FindLifetime(parts).value);
      }
    }
  }

  lemma FindIsFirstMatch(parts: seq<string>, lifetime: nat)
    ensures Recognises(parts, lifetime) <==> FindLifetime(parts) == Some(lifetime)
  {
    var first := FindIsFirst(parts);
    if Recognises(parts, lifetime) {
      var k: nat :| FirstRecognised(parts, k, lifetime);
      assert k == first;
    }
  }

  /** `k` is the position of the first recognised directive, or the number of directives if none is. */
  lemma {:induction false} FindIsFirst(parts: seq<string>) returns (k: nat)
    ensures k <= |parts|
    ensures forall j :: 0 <= j < k ==> DirectiveLifetime(Trim(parts[j])) == None
    ensures FindLifetime(parts) == if k < |parts| then DirectiveLifetime(Trim(parts[k])) else None
    ensures k < |parts| ==> FindLifetime(parts).Some? && FirstRecognised(parts, k, FindLifetime(parts).value)
  {
    if parts == [] || DirectiveLifetime(Trim(parts[0])).Some? {
      k := 0;
    } else {
      var before := FindIsFirst(parts[1..]);
      k := before + 1;
    }
  }

  // ---------- printing and reading back ----------

  /** A number may be written with a plus and zeros in front, and anything may follow `no-cache` and `no-store`. */
  datatype Directive =
    | MaxAge(plus: string, zeros: string, seconds: nat)
    | NoCache(more: string)
    | NoStore(more: string)
    | Extension(token: string)

  /** A directive with the white space around it. */
  datatype Item = Item(before: string, directive: Directive, after: string)

  function Core(d: Directive): string {
    match d
    case MaxAge(plus, zeros, n) => "max-age=" + (plus + zeros + Decimal.Print(n))
    case NoCache(more) => "no-cache" + more
    case NoStore(more) => "no-store" + more
    case Extension(token) => token
  }

  function Lifetime(d: Directive): Option<nat> {
    match d
    case MaxAge(_, _, n) => if n < 0x1_0000_0000_0000_0000 then Some(n) else None
    case NoCache(_) => Some(0)
    case NoStore(_) => Some(0)
    case Extension(_) => None
  }

  /** Blanks and tabs. */
  predicate IsPadding(s: string) {
    forall i :: 0 <= i < |s| ==> s[i] == ' ' || s[i] == '\t'
  }

  /** Comma-free text without blank or tab at its ends. */
  predicate IsToken(s: string) {
    && (forall i :: 0 <= i < |s| ==> (' ' <= s[i] <= '~' || s[i] == '\t') && s[i] != ',')
    && (s != "" ==> s[0] != ' ' && s[0] != '\t' && s[|s| - 1] != ' ' && s[|s| - 1] != '\t')
  }

  /** A decimal number that fits in 64 bits, with zeros and a plus in front. */
  ghost predicate IsNumber(s: string) {
    exists plus: string, zeros: string, n: nat :: n < 0x1_0000_0000_0000_0000 && Decimal.IsWritten(s, n, plus, zeros)
  }

  ghost predicate ValidItem(item: Item) {
    && IsPadding(item.before) && IsPadding(item.after) && IsToken(Core(item.directive))
    && match item.directive
       case MaxAge(plus, zeros, _) => Decimal.IsPlus(plus) && Decimal.IsZeros(zeros)
       case Extension(token) =>
         && !("no-cache" <= token) && !("no-store" <= token)
         && ("max-age=" <= token ==> !IsNumber(token[8..]))
       case _ => true
  }

  function PrintItem(item: Item): string {
    item.before + Core(item.directive) + item.after
  }

  function PrintItems(items: seq<Item>): seq<string> {
    if items == [] then [] else [PrintItem(items[0])] + PrintItems(items[1..])
  }

  function FirstLifetime(items: seq<Item>): Option<nat> {
    if items == [] then None
    else if Lifetime(items[0].directive).Some? then Lifetime(items[0].directive)
    else FirstLifetime(items[1..])
  }

  lemma {:induction false} TrimStartBlank(blank: string, s: string)
    requires AllBlank(blank)
    ensures TrimStart(blank + s) == TrimStart(s)
  {
    if blank == [] {
      assert blank + s == s;
    } else {
      assert (blank + s)[1..] == blank[1..] + s;
      TrimStartBlank(blank[1..], s);
    }
  }

  lemma {:induction false} TrimEndBlank(s: string, blank: string)
    requires AllBlank(blank)
    ensures TrimEnd(s + blank) == TrimEnd(s)
  {
    if blank == [] {
      assert s + blank == s;
    } else {
      var t := s + blank;
      assert t[..|t| - 1] == s + blank[..|blank| - 1];
      TrimEndBlank(s, blank[..|blank| - 1]);
    }
  }

  lemma TrimPadded(before: string, core: string, after: string)
    requires AllBlank(before) && AllBlank(after) && (core != [] ==> !IsBlank(core[0]) && !IsBlank(core[|core| - 1]))
    ensures Trim(before + core + after) == core
  {
    assert before + core + after == before + (core + after);
    TrimStartBlank(before, core + after);
    if core == [] {
      assert core + after == after + [];
      TrimStartBlank(after, []);
    } else {
      TrimEndBlank(core, after);
    }
  }

  lemma NumberExactly(s: string)
    ensures Decimal.Parsed(s).Some? <==> IsNumber(s)
  {
    if Decimal.Parsed(s).Some? {
      Decimal.ParsedExactly(s, Decimal.Parsed(s).value);
    }
    if plus: string, zeros: string, n: nat :|
      n < 0x1_0000_0000_0000_0000 && Decimal.IsWritten(s, n, plus, zeros)
    {
      Decimal.ParsedExactly(s, n);
    }
  }

  lemma PrefixReads(prefix: string, rest: string)
    ensures StripPrefix(prefix + rest, prefix) == Some(rest)
  {
  }

  lemma MaxAgeReads(number: string)
    ensures DirectiveLifetime("max-age=" + number) == Decimal.Parsed(number)
  {
    var core := "max-age=" + number;
    PrefixReads("max-age=", number);
    assert core[0] == 'm';
  }

  lemma NoCacheReads(more: string)
    ensures DirectiveLifetime("no-cache" + more) == Some(0) == DirectiveLifetime("no-store" + more)
  {
    PrefixReads("no-cache", more);
    PrefixReads("no-store", more);
  }

  lemma ExtensionReads(token: string)
    requires !("no-cache" <= token) && !("no-store" <= token) && ("max-age=" <= token ==> !IsNumber(token[8..]))
    ensures DirectiveLifetime(token) == None
  {
    if "max-age=" <= token {
      NumberExactly(token[8..]);
    }
  }

  lemma CoreReads(item: Item)
    requires ValidItem(item)
    ensures DirectiveLifetime(Core(item.directive)) == Lifetime(item.directive)
  {
    match item.directive
    case MaxAge(plus, zeros, n) =>
      var number := plus + zeros + Decimal.Print(n);
      Decimal.WrittenIsParsed(number, n, plus, zeros);
      MaxAgeReads(number);
    case NoCache(more) => NoCacheReads(more);
    case NoStore(more) => NoCacheReads(more);
    case Extension(token) => ExtensionReads(token);
  }

  /** Each printed directive is read as what it says. */
  lemma ItemReads(item: Item)
    requires ValidItem(item)
    ensures DirectiveLifetime(Trim(PrintItem(item))) == Lifetime(item.directive)
    ensures NoComma(PrintItem(item)) && IsText(PrintItem(item))
  {
    CoreReads(item);
    TrimPadded(item.before, Core(item.directive), item.after);
  }

  lemma {:induction false} ItemsRead(items: seq<Item>)
    requires forall i :: 0 <= i < |items| ==> ValidItem(items[i])
    ensures |PrintItems(items)| == |items|
    ensures FindLifetime(PrintItems(items)) == FirstLifetime(items)
    ensures forall i :: 0 <= i < |items| ==> NoComma(PrintItems(items)[i])
    ensures IsText(Join(PrintItems(items)))
  {
    if items != [] {
      ItemReads(items[0]);
      ItemsRead(items[1..]);
      assert PrintItems(items)[1..] == PrintItems(items[1..]);
    }
  }

  /** The lifetime the items ask for, in seconds. */
  function Asked(items: seq<Item>): nat {
    if FirstLifetime(items).Some? then FirstLifetime(items).value else 3600
  }

  ghost predicate AreValid(items: seq<Item>) {
    forall i :: 0 <= i < |items| ==> ValidItem(items[i])
  }

  /** Round trip: however the white space is placed, printing a list of directives and reading the header back
      gives the lifetime of the first `max-age` (below 2^64), `no-cache` or `no-store` in it, skipping
      extensions and numbers that overflow, and one hour when there is none. */
  lemma PrintedHeaderReadsBack(items: seq<Item>)
    requires AreValid(items)
    ensures CacheFor(Some(Join(PrintItems(items)))) == Asked(items)
  {
    ItemsRead(items);
    if items == [] {
      EmptyHeader("");
    } else {
      JoinIsInverseOfSplit(PrintItems(items));
    }
  }

  lemma EmptyHeader(s: string)
    requires s == ""
    ensures FindLifetime(Split(s)) == None
  {
    assert Split(s) == [s];
    assert FindLifetime([s]) == FindLifetime([s][1..]);
  }

  // ---------- every header is a list of directives ----------

  lemma {:induction false} StartTrimmed(s: string) returns (before: string)
    ensures IsPadding(before) && s == before + TrimStart(s)
    ensures TrimStart(s) != [] ==> !IsBlank(TrimStart(s)[0])
  {
    if s != [] && IsBlank(s[0]) {
      var more := StartTrimmed(s[1..]);
      before := [s[0]] + more;
      assert s == [s[0]] + s[1..];
    } else {
      before := [];
    }
  }

  lemma {:induction false} EndTrimmed(s: string) returns (after: string)
    ensures IsPadding(after) && s == TrimEnd(s) + after
    ensures TrimEnd(s) != [] ==> !IsBlank(TrimEnd(s)[|TrimEnd(s)| - 1])
  {
    if s != [] && IsBlank(s[|s| - 1]) {
      var init := s[..|s| - 1];
      var more := EndTrimmed(init);
      after := more + [s[|s| - 1]];
      assert s == init + [s[|s| - 1]];
      assert TrimEnd(s) == TrimEnd(init);
    } else {
      after := [];
    }
  }

  predicate IsPlain(s: string) {
    NoComma(s) && IsText(s)
  }

  lemma PlainInside(before: string, core: string, after: string)
    requires IsPlain(before + core + after)
    ensures IsPlain(core)
  {
    var s := before + core + after;
    forall i | 0 <= i < |core| ensures core[i] == s[|before| + i] {
    }
  }

  lemma Trimmed(s: string) returns (before: string, after: string)
    requires IsPlain(s)
    ensures IsPadding(before) && IsPadding(after) && IsToken(Trim(s)) && s == before + Trim(s) + after
  {
    var start, core := TrimStart(s), Trim(s);
    before := StartTrimmed(s);
    after := EndTrimmed(start);
    assert s == before + core + after by {
      assert s == before + (core + after);
    }
    PlainInside(before, core, after);
    if core != [] {
      assert core[0] == (core + after)[0];
    }
  }

  lemma Classified(core: string) returns (d: Directive)
    requires IsToken(core)
    ensures Core(d) == core && ValidItem(Item("", d, ""))
  {
    if "no-cache" <= core {
      d := NoCache(core[8..]);
    } else if "no-store" <= core {
      d := NoStore(core[8..]);
    } else if "max-age=" <= core && IsNumber(core[8..]) {
      var plus: string, zeros: string, n: nat :|
        n < 0x1_0000_0000_0000_0000 && Decimal.IsWritten(core[8..], n, plus, zeros);
      d := MaxAge(plus, zeros, n);
      assert core == "max-age=" + core[8..];
    } else {
      d := Extension(core);
    }
  }

  lemma PartIsItem(part: string) returns (item: Item)
    requires IsPlain(part)
    ensures ValidItem(item) && PrintItem(item) == part
  {
    var before, after := Trimmed(part);
    var d := Classified(Trim(part));
    item := Item(before, d, after);
  }

  lemma {:induction false} PartsAreItems(parts: seq<string>) returns (items: seq<Item>)
    requires forall i :: 0 <= i < |parts| ==> IsPlain(parts[i])
    ensures AreValid(items) && PrintItems(items) == parts
  {
    if parts == [] {
      items := [];
    } else {
      var item := PartIsItem(parts[0]);
      var more := PartsAreItems(parts[1..]);
      items := [item] + more;
      ItemsCons(item, more);
      assert parts == [parts[0]] + parts[1..];
    }
  }

  lemma ItemsCons(item: Item, more: seq<Item>)
    requires ValidItem(item) && AreValid(more)
    ensures AreValid([item] + more) && PrintItems([item] + more) == [PrintItem(item)] + PrintItems(more)
  {
    assert ([item] + more)[1..] == more;
    forall i | 0 <= i < |[item] + more| ensures ValidItem(([item] + more)[i]) {
      if i > 0 {
        assert ([item] + more)[i] == more[i - 1];
      }
    }
  }

  lemma {:induction false} PartsOfText(parts: seq<string>)
    requires IsText(Join(parts))
    ensures forall i :: 0 <= i < |parts| ==> IsText(parts[i])
  {
    if |parts| > 1 {
      var rest := Join(parts[1..]);
      var all := parts[0] + "," + rest;
      forall i | 0 <= i < |rest| ensures rest[i] == all[|parts[0]| + 1 + i] {
      }
      forall i | 0 <= i < |parts[0]| ensures parts[0][i] == all[i] {
      }
      PartsOfText(parts[1..]);
    }
  }

  /** The header is text (blanks, tabs and visible ASCII) printed from items that ask for this many seconds; or there
      is no such header, and it is one hour. */
  ghost predicate AsksFor(header: Option<string>, seconds: nat) {
    if header.Some? && (forall i :: 0 <= i < |header.value| ==>
                          ' ' <= header.value[i] <= '~' || header.value[i] == '\t')
    then exists items :: AreValid(items) && header.value == Join(PrintItems(items)) && seconds == Asked(items)
    else seconds == 3600
  }

  /** The reader is total, and nothing else matters: every header that is text is a list of such items. */
  lemma CacheForExactly(header: Option<string>, lifetime: nat)
    ensures CacheFor(header) == lifetime <==> AsksFor(header, lifetime)
  {
    if header.Some? && IsText(header.value) {
      SplitIsInverseOfJoin(header.value);
      PartsOfText(Split(header.value));
      var items := PartsAreItems(Split(header.value));
      PrintedHeaderReadsBack(items);
      if items' :| AreValid(items') && header.value == Join(PrintItems(items')) && lifetime == Asked(items') {
        PrintedHeaderReadsBack(items');
      }
    }
  }
}

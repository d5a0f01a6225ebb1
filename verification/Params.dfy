// internal/controller/params.go: the text format of params.env.
module Params {
  import opened Outcome
  import opened Sequences
  import opened Text

  type Entries = map<string, string>

  // bufio.MaxScanTokenSize: a line of this many bytes or more makes the scanner give up.
  const TOKEN_LIMIT: nat := 65536

  // --- Reading ---

  // The tokens of bufio.ScanLines before the trailing carriage return is cut off.
  function Lines(text: string): seq<string>
    decreases |text|
  {
    if text == "" then [] else [FirstLine(text)] + Lines(AfterLine(text))
  }

  function FirstLine(text: string): string {
    text[..IndexOf(text, '\n')]
  }

  function AfterLine(text: string): (rest: string)
    ensures text != "" ==> |rest| < |text|
  {
    var i := IndexOf(text, '\n');
    if i < |text| then text[i + 1..] else ""
  }

  function DropCR(line: string): string {
    if line != "" && line[|line| - 1] == '\r' then line[..|line| - 1] else line
  }

  // What one line does to the map: nothing for a blank line, a comment or a line without `=`.
  function AddLine(params: Entries, line: string): Entries {
    var l := Trim(DropCR(line));
    if l == "" || l[0] == '#' then params
    else
      var i := IndexOf(l, '=');
      if i == |l| then params else params[l[..i] := l[i + 1..]]
  }

  // The lines are taken in order, so a later line wins over an earlier one.
  function ReadLines(lines: seq<string>): Entries {
    if lines == [] then map[] else AddLine(ReadLines(lines[..|lines| - 1]), lines[|lines| - 1])
  }

  predicate Scannable(lines: seq<string>) {
    forall l <- lines :: Utf8Len(l) < TOKEN_LIMIT
  }

  function Read(text: string): Result<Entries> {
    if Scannable(Lines(text)) then Success(ReadLines(Lines(text))) else Failure("token too long")
  }

  // The scanner stands before `rest` and the lines behind it have given `params`.
  ghost predicate Scanning(text: string, rest: string, params: Entries) {
    exists done :: Lines(text) == done + Lines(rest) && Scannable(done) && params == ReadLines(done)
  }

  lemma ScanStart(text: string)
    ensures Scanning(text, text, map[])
  {
    var done: seq<string> := [];
    assert Lines(text) == done + Lines(text);
  }

  lemma ScanLine(text: string, rest: string, params: Entries)
    requires rest != "" && Scanning(text, rest, params)
    ensures
      if Utf8Len(FirstLine(rest)) < TOKEN_LIMIT then
        Scanning(text, AfterLine(rest), AddLine(params, FirstLine(rest)))
      else
        Read(text).Failure?
  {
    var done :| Lines(text) == done + Lines(rest) && Scannable(done) && params == ReadLines(done);
    var token := FirstLine(rest);
    Assoc(done, [token], Lines(AfterLine(rest)));
    Middle(done, token, Lines(AfterLine(rest)));
    if Utf8Len(token) < TOKEN_LIMIT {
      ReadStep(done, token);
    }
  }

  lemma ScanEnd(text: string, params: Entries)
    requires Scanning(text, "", params)
    ensures Read(text) == Success(params)
  {
    var done :| Lines(text) == done + Lines("") && Scannable(done) && params == ReadLines(done);
    assert done == Lines(text);
  }

  lemma ReadStep(done: seq<string>, token: string)
    requires Scannable(done) && Utf8Len(token) < TOKEN_LIMIT
    ensures Scannable(done + [token])
    ensures ReadLines(done + [token]) == AddLine(ReadLines(done), token)
  {
    Snoc(done, token);
  }

  method ReadParams(text: string) returns (r: Result<Entries>)
    ensures r == Read(text)
  {
    var params: Entries := map[];
    var rest := text;
    ScanStart(text);
    while rest != ""
      invariant Scanning(text, rest, params)
      decreases |rest|
    {
      var token := FirstLine(rest);
      ScanLine(text, rest, params);
      if Utf8Len(token) >= TOKEN_LIMIT {
        return Failure("token too long");
      }
      rest := AfterLine(rest);
      var line := Trim(DropCR(token));
      if line == "" || line[0] == '#' {
        continue;
      }
      var eq := IndexOf(line, '=');
      if eq == |line| {
        continue;
      }
      params := params[line[..eq] := line[eq + 1..]];
    }
    ScanEnd(text, params);
    return Success(params);
  }

  // --- Writing ---

  function EntryLine(key: string, value: string): string {
    key + "=" + value
  }

  // The text written for the entries in this order.
  function Print(order: seq<(string, string)>): string {
    if order == [] then ""
    else
      var (key, value) := order[|order| - 1];
      Print(order[..|order| - 1]) + (EntryLine(key, value) + "\n")
  }

  function ToMap(order: seq<(string, string)>): Entries {
    if order == [] then map[]
    else
      var (key, value) := order[|order| - 1];
      ToMap(order[..|order| - 1])[key := value]
  }

  lemma PrintSnoc(order: seq<(string, string)>, key: string, value: string)
    ensures Print(order + [(key, value)]) == Print(order) + (EntryLine(key, value) + "\n")
    ensures ToMap(order + [(key, value)]) == ToMap(order)[key := value]
  {
    Snoc(order, (key, value));
  }

  // One of the orders in which Go may range over the map: each entry once.
  predicate Enumerates(order: seq<(string, string)>, params: Entries) {
    |order| == |params| && ToMap(order) == params
  }

  // A text that holds all of `params`, in some order.
  ghost predicate Prints(text: string, params: Entries) {
    exists order :: Enumerates(order, params) && text == Print(order)
  }

  // A text that holds the entries of `params` outside `remaining`, in some order.
  ghost predicate PrintsExcept(text: string, params: Entries, remaining: set<string>) {
    exists order ::
      && |order| + |remaining| == |params|
      && ToMap(order) == params - remaining
      && text == Print(order)
  }

  lemma PrintsNone(params: Entries)
    ensures PrintsExcept("", params, params.Keys)
  {
    var order: seq<(string, string)> := [];
    assert ToMap(order) == params - params.Keys;
    assert "" == Print(order);
  }

  lemma PrintsOneMore(text: string, params: Entries, remaining: set<string>, key: string)
    requires PrintsExcept(text, params, remaining) && key in remaining && remaining <= params.Keys
    ensures PrintsExcept(text + (EntryLine(key, params[key]) + "\n"), params, remaining - {key})
  {
    var order :| |order| + |remaining| == |params| && ToMap(order) == params - remaining && text == Print(order);
    var order' := order + [(key, params[key])];
    PrintSnoc(order, key, params[key]);
    RestrictStep(params, remaining, key);
    assert |order'| + |remaining - {key}| == |params|;
    assert ToMap(order') == params - (remaining - {key});
  }

  lemma RestrictStep(params: Entries, remaining: set<string>, key: string)
    requires key in params && key in remaining
    ensures params - (remaining - {key}) == (params - remaining)[key := params[key]]
  {
  }

  lemma PrintsAll(text: string, params: Entries)
    requires PrintsExcept(text, params, {})
    ensures Prints(text, params)
  {
    var order :| |order| + 0 == |params| && ToMap(order) == params - {} && text == Print(order);
    assert Enumerates(order, params);
  }

  // --- Which entries survive a round trip ---

  predicate LineSafe(key: string, value: string) {
    && '=' !in key && '\n' !in key
    && (key != "" ==> !IsSpace(key[0]) && key[0] != '#')
    && '\n' !in value
    && (value != "" ==> !IsSpace(value[|value| - 1]))
    && Utf8Len(EntryLine(key, value)) < TOKEN_LIMIT
  }

  predicate AllLineSafe(params: Entries) {
    forall key <- params :: LineSafe(key, params[key])
  }

  // --- Proofs ---

  lemma {:induction false} LinesSnoc(a: string, line: string, b: string)
    requires a == "" || a[|a| - 1] == '\n'
    requires '\n' !in line && b == line + "\n"
    ensures Lines(a + b) == Lines(a) + [line]
    decreases |a|
  {
    if a == "" {
      assert a + b == b;
      LastLine(line);
    } else {
      FirstLineSnoc(a, b);
      LinesSnoc(AfterLine(a), line, b);
      Assoc([FirstLine(a)], Lines(AfterLine(a)), [line]);
    }
  }

  lemma LastLine(line: string)
    requires '\n' !in line
    ensures Lines(line + "\n") == [line]
  {
    var text := line + "\n";
    assert text == line + ['\n'] + "";
    IndexOfFirst(line, '\n', "");
    assert FirstLine(text) == line && AfterLine(text) == "";
  }

  lemma FirstLineSnoc(a: string, b: string)
    requires a != "" && a[|a| - 1] == '\n'
    ensures FirstLine(a + b) == FirstLine(a) && AfterLine(a + b) == AfterLine(a) + b
    ensures AfterLine(a) == "" || AfterLine(a)[|AfterLine(a)| - 1] == '\n'
  {
    var i := IndexOf(a, '\n');
    IndexOfIs(a, '\n');
    assert i < |a|;
    assert a + b == a[..i] + ['\n'] + (a[i + 1..] + b);
    IndexOfFirst(a[..i], '\n', a[i + 1..] + b);
  }

  lemma AddSafeLine(params: Entries, key: string, value: string)
    requires LineSafe(key, value)
    ensures AddLine(params, EntryLine(key, value)) == params[key := value]
  {
    var line := EntryLine(key, value);
    assert line == key + ['='] + value;
    assert line[|key|] == '=' && (key != "" ==> line[0] == key[0]);
    assert value == "" ==> line[|line| - 1] == '=';
    assert value != "" ==> line[|line| - 1] == value[|value| - 1];
    assert Trimmed(line);
    assert DropCR(line) == line;
    TrimIdentity(line);
    IndexOfFirst(key, '=', value);
    assert line[..|key|] == key && line[|key| + 1..] == value;
  }

  lemma {:induction false} LinesHaveNoNewline(text: string)
    ensures forall l <- Lines(text) :: '\n' !in l
    decreases |text|
  {
    if text != "" {
      IndexOfIs(text, '\n');
      LinesHaveNoNewline(AfterLine(text));
    }
  }

  lemma ReadSnoc(lines: seq<string>, key: string, value: string)
    requires Scannable(lines) && LineSafe(key, value)
    ensures Scannable(lines + [EntryLine(key, value)])
    ensures ReadLines(lines + [EntryLine(key, value)]) == ReadLines(lines)[key := value]
  {
    AddSafeLine(ReadLines(lines), key, value);
    Snoc(lines, EntryLine(key, value));
  }

  lemma {:induction false} ReadOfPrint(order: seq<(string, string)>)
    requires forall e <- order :: LineSafe(e.0, e.1)
    ensures Print(order) == "" || Print(order)[|Print(order)| - 1] == '\n'
    ensures Read(Print(order)) == Success(ToMap(order))
  {
    if order != [] {
      var init := order[..|order| - 1];
      var (key, value) := order[|order| - 1];
      assert order[|order| - 1] in order;
      ReadOfPrint(init);
      LinesSnoc(Print(init), EntryLine(key, value), EntryLine(key, value) + "\n");
      ReadSnoc(Lines(Print(init)), key, value);
    }
  }

  lemma {:induction false} ToMapKeys(order: seq<(string, string)>)
    ensures |ToMap(order)| <= |order|
    ensures forall e <- order :: e.0 in ToMap(order)
  {
    if order != [] {
      ToMapKeys(order[..|order| - 1]);
    }
  }

  // An enumeration of a map lists exactly its entries.
  lemma {:induction false} EnumerationEntries(order: seq<(string, string)>)
    requires |order| == |ToMap(order)|
    ensures forall e <- order :: e.0 in ToMap(order) && ToMap(order)[e.0] == e.1
  {
    if order != [] {
      var init := order[..|order| - 1];
      var (key, value) := order[|order| - 1];
      ToMapKeys(init);
      assert |ToMap(order)| == |ToMap(init)| + if key in ToMap(init) then 0 else 1;
      EnumerationEntries(init);
    }
  }

  // Writing a map in any order and reading it back yields the map exactly when every entry
  // is line-safe.
  lemma RoundTrip(params: Entries, order: seq<(string, string)>)
    requires Enumerates(order, params)
    ensures Read(Print(order)) == Success(params) <==> AllLineSafe(params)
  {
    if AllLineSafe(params) {
      EnumerationEntries(order);
      ReadOfPrint(order);
    }
    if Read(Print(order)) == Success(params) {
      NormalForm(Print(order));
    }
  }

  // Reading is unaffected by a rewrite of the file in any order.
  lemma ReadWriteRead(text: string, order: seq<(string, string)>)
    requires Read(text).Success? && Enumerates(order, Read(text).value)
    ensures Read(Print(order)) == Read(text)
  {
    NormalForm(text);
    RoundTrip(Read(text).value, order);
  }

  lemma ReadOfPrints(text: string, params: Entries)
    requires Prints(text, params)
    ensures Read(text) == Success(params) <==> AllLineSafe(params)
  {
    var order :| Enumerates(order, params) && text == Print(order);
    RoundTrip(params, order);
  }

  // --- What a text says ---

  // The line is the entry, with white space around it.
  ghost predicate Gives(line: string, key: string, value: string) {
    && '=' !in key && (key != "" ==> key[0] != '#') && Trimmed(key + "=" + value)
    && exists a, b :: Blank(a) && Blank(b) && line == a + (key + "=" + value) + b
  }

  // A blank line, a comment, or a line without `=`, with white space around it.
  ghost predicate GivesNothing(line: string) {
    exists a, s, b ::
      && Blank(a) && Blank(b) && Trimmed(s) && line == a + s + b
      && (s == "" || s[0] == '#' || '=' !in s)
  }

  lemma DropCRTrim(line: string)
    ensures Trim(DropCR(line)) == Trim(line)
  {
    if DropCR(line) != line {
      var a, b := TrimParts(DropCR(line));
      assert line == a + Trim(DropCR(line)) + (b + ['\r']);
      TrimAround(a, Trim(DropCR(line)), b + ['\r']);
    }
  }

  lemma AddGiven(params: Entries, line: string, key: string, value: string)
    requires Gives(line, key, value)
    ensures AddLine(params, line) == params[key := value]
  {
    var entry := key + "=" + value;
    var a, b :| Blank(a) && Blank(b) && line == a + entry + b;
    DropCRTrim(line);
    TrimAround(a, entry, b);
    CutEntry(key, value);
  }

  lemma CutEntry(key: string, value: string)
    requires '=' !in key && (key != "" ==> key[0] != '#')
    ensures
      var entry := key + "=" + value;
      && entry != "" && entry[0] != '#'
      && IndexOf(entry, '=') == |key| && entry[..|key|] == key && entry[|key| + 1..] == value
  {
    IndexOfFirst(key, '=', value);
  }

  lemma AddNothing(params: Entries, line: string)
    requires GivesNothing(line)
    ensures AddLine(params, line) == params
  {
    var a, s, b :|
      && Blank(a) && Blank(b) && Trimmed(s) && line == a + s + b
      && (s == "" || s[0] == '#' || '=' !in s);
    DropCRTrim(line);
    TrimAround(a, s, b);
    if '=' !in s {
      IndexOfAbsent(s, '=');
    }
  }

  // Every line gives an entry or nothing.
  lemma LineCases(line: string) returns (given: Option<(string, string)>)
    ensures given.Some? ==> Gives(line, given.value.0, given.value.1)
    ensures given.None? ==> GivesNothing(line)
  {
    var a, b := TrimParts(line);
    var s := Trim(line);
    var i := IndexOf(s, '=');
    IndexOfIs(s, '=');
    if s == "" || s[0] == '#' || i == |s| {
      assert i == |s| ==> s[..i] == s;
      return None;
    }
    assert s == s[..i] + "=" + s[i + 1..];
    assert i > 0 ==> s[..i][0] == s[0];
    return Some((s[..i], s[i + 1..]));
  }

  // A line does one thing to the map: it adds the entry it gives, and leaves the map as it is if
  // it gives none.
  lemma LineMeans(params: Entries, line: string)
    ensures forall key, value | Gives(line, key, value) :: AddLine(params, line) == params[key := value]
    ensures GivesNothing(line) ==> AddLine(params, line) == params
    ensures GivesNothing(line) <==> forall key, value :: !Gives(line, key, value)
  {
    forall key, value | Gives(line, key, value)
      ensures AddLine(params, line) == params[key := value]
      ensures !GivesNothing(line)
    {
      AddGiven(params, line, key, value);
      AddGiven(map[], line, key, value);
      assert key in AddLine(map[], line);
      if GivesNothing(line) {
        AddNothing(map[], line);
      }
    }
    if GivesNothing(line) {
      AddNothing(params, line);
    }
    var given := LineCases(line);
  }

  // Whatever a line adds is line-safe.
  lemma AddedIsSafe(params: Entries, line: string)
    requires AllLineSafe(params) && '\n' !in line && Utf8Len(line) < TOKEN_LIMIT
    ensures AllLineSafe(AddLine(params, line))
  {
    var given := LineCases(line);
    LineMeans(params, line);
    if given.Some? {
      GivenIsSafe(line, given.value.0, given.value.1);
    }
  }

  lemma CutIsSafe(l: string, eq: nat)
    requires '\n' !in l && Trimmed(l) && Utf8Len(l) < TOKEN_LIMIT
    requires eq < |l| && l[eq] == '=' && '=' !in l[..eq] && l[0] != '#'
    ensures LineSafe(l[..eq], l[eq + 1..])
  {
    assert l == EntryLine(l[..eq], l[eq + 1..]);
  }

  lemma GivenIsSafe(line: string, key: string, value: string)
    requires Gives(line, key, value) && '\n' !in line && Utf8Len(line) < TOKEN_LIMIT
    ensures LineSafe(key, value)
  {
    var entry := key + "=" + value;
    var a, b :| Blank(a) && Blank(b) && line == a + entry + b;
    Inside(a, entry, b, '\n');
    Utf8LenConcat(a + entry, b);
    Utf8LenConcat(a, entry);
    CutEntry(key, value);
    assert entry[|key|] == '=';
    CutIsSafe(entry, |key|);
  }

  lemma {:induction false} ReadLinesSafe(lines: seq<string>)
    requires Scannable(lines) && forall l <- lines :: '\n' !in l
    ensures AllLineSafe(ReadLines(lines))
  {
    if lines != [] {
      var last := lines[|lines| - 1];
      ReadLinesSafe(lines[..|lines| - 1]);
      AddedIsSafe(ReadLines(lines[..|lines| - 1]), last);
    }
  }

  // Every map that comes out of the reader is line-safe, whatever the text looked like.
  lemma NormalForm(text: string)
    requires Read(text).Success?
    ensures AllLineSafe(Read(text).value)
  {
    LinesHaveNoNewline(text);
    ReadLinesSafe(Lines(text));
  }

  // The lines of a text are what newlines separate, without an empty last one.
  lemma {:induction false} LinesAreSplit(text: string)
    ensures Split(text, '\n') == Lines(text) || Split(text, '\n') == Lines(text) + [""]
    decreases |text|
  {
    var i := IndexOf(text, '\n');
    if text != "" && i < |text| {
      LinesAreSplit(text[i + 1..]);
      Assoc([text[..i]], Lines(text[i + 1..]), [""]);
    } else if text != "" {
      assert text[..i] == text;
      assert Lines("") == [];
    }
  }

  // The line gives the key a value.
  ghost predicate Names(line: string, key: string) {
    exists value :: Gives(line, key, value)
  }

  // Line i gives the key this value and no later line gives it any.
  ghost predicate LastGives(lines: seq<string>, i: nat, key: string, value: string) {
    i < |lines| && Gives(lines[i], key, value) && forall j | i < j < |lines| :: !Names(lines[j], key)
  }

  ghost predicate LastGiven(lines: seq<string>, key: string, value: string) {
    exists i :: LastGives(lines, i, key, value)
  }

  predicate Has(params: Entries, key: string, value: string) {
    key in params && params[key] == value
  }

  lemma {:induction false} ReadLinesMean(lines: seq<string>, key: string, value: string)
    ensures Has(ReadLines(lines), key, value) <==> LastGiven(lines, key, value)
  {
    if lines != [] {
      var init, last := lines[..|lines| - 1], lines[|lines| - 1];
      ReadLinesMean(init, key, value);
      LineStep(ReadLines(init), init, last, key, value);
      assert lines == init + [last];
    }
  }

  lemma LineStep(params: Entries, init: seq<string>, line: string, key: string, value: string)
    requires Has(params, key, value) <==> LastGiven(init, key, value)
    ensures Has(AddLine(params, line), key, value) <==> LastGiven(init + [line], key, value)
  {
    var given := LineCases(line);
    LineMeans(params, line);
    if given.Some? && given.value.0 == key {
      LastNamed(init, line, key, value, given.value.1);
    } else {
      NotNamed(line, given, key);
      LastNotNamed(init, line, key, value);
    }
  }

  lemma LastNamed(init: seq<string>, line: string, key: string, value: string, given: string)
    requires Gives(line, key, given)
    ensures LastGiven(init + [line], key, value) <==> value == given
  {
    var lines, n := init + [line], |init|;
    AddGiven(map[], line, key, given);
    if value == given {
      assert LastGives(lines, n, key, value);
    }
    if i: nat :| LastGives(lines, i, key, value) {
      assert Names(lines[n], key);
      assert i == n;
      AddGiven(map[], line, key, value);
      assert AddLine(map[], line)[key] == value;
    }
  }

  lemma NotNamed(line: string, given: Option<(string, string)>, key: string)
    requires given.Some? ==> Gives(line, given.value.0, given.value.1) && given.value.0 != key
    requires given.None? ==> GivesNothing(line)
    ensures !Names(line, key)
  {
    LineMeans(map[], line);
    if given.Some? {
      assert key !in AddLine(map[], line);
    }
    forall value
      ensures !Gives(line, key, value)
    {
      if Gives(line, key, value) {
        AddGiven(map[], line, key, value);
      }
    }
  }

  lemma LastNotNamed(init: seq<string>, line: string, key: string, value: string)
    requires !Names(line, key)
    ensures LastGiven(init + [line], key, value) <==> LastGiven(init, key, value)
  {
    var lines := init + [line];
    if i: nat :| LastGives(lines, i, key, value) {
      assert i < |init|;
      assert forall j | i < j < |init| :: lines[j] == init[j];
      assert LastGives(init, i, key, value);
    }
    if i: nat :| LastGives(init, i, key, value) {
      assert LastGives(lines, i, key, value);
    }
  }

  // A text is read unless some line of it, line break aside, takes 65536 bytes or more. A key then has
  // a value exactly if some line gives it and no later line gives the key any; a last line without
  // a line break counts.
  lemma ReadMeans(text: string, key: string, value: string)
    ensures Read(text).Success? <==> forall line <- Split(text, '\n') :: Utf8Len(line) < 65536
    ensures Read(text).Success? ==>
      (Has(Read(text).value, key, value) <==> LastGiven(Split(text, '\n'), key, value))
  {
    var lines := Split(text, '\n');
    LinesAreSplit(text);
    ReadLinesMean(Lines(text), key, value);
    if lines != Lines(text) {
      Snoc(Lines(text), "");
      var nothing := LineCases("");
      assert GivesNothing("") by {
        assert Blank("") && Trimmed("") && "" == "" + "" + "";
      }
      NotNamed("", None, key);
      LastNotNamed(Lines(text), "", key, value);
      assert Utf8Len("") == 0;
    }
  }

  // Printing writes the lines one after the other.
  lemma {:induction false} PrintConcat(a: seq<(string, string)>, b: seq<(string, string)>, key: string, value: string)
    ensures Print(a + b) == Print(a) + Print(b)
    ensures Print([(key, value)]) == key + "=" + value + "\n"
    decreases |b|
  {
    assert [(key, value)][..0] == [];
    if b == [] {
      assert a + b == a;
    } else {
      assert (a + b)[..|a + b| - 1] == a + b[..|b| - 1];
      PrintConcat(a, b[..|b| - 1], key, value);
    }
  }
}

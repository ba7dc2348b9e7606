/**
 The Songlengths database: an INI-style text whose keys are MD5 digests and whose
 values are one length for each subtune.
*/
module SongLengths {
  import opened Wrappers
  import opened Text
  import opened Lengths
  import RenditionKeys

  type Byte = RenditionKeys.Byte

  type Database = map<seq<Byte>, seq<real>>

  // ---- Keys ----

  function HexValue(c: char): (n: Option<nat>)
    ensures n.Some? ==> n.value < 16
  {
    if '0' <= c <= '9' then Some((c - '0') as nat)
    else if 'a' <= c <= 'f' then Some((c - 'a') as nat + 10)
    else if 'A' <= c <= 'F' then Some((c - 'A') as nat + 10)
    else None
  }

  predicate AllHex(text: string) {
    forall i :: 0 <= i < |text| ==> HexValue(text[i]).Some?
  }

  /** The bytes of pairs of hexadecimal digits. */
  function Unhex(text: string): (bytes: seq<Byte>)
    requires AllHex(text)
    ensures |bytes| == |text| / 2
  {
    if |text| < 2 then []
    else [HexByte(text[0], text[1])] + Unhex(text[2..])
  }

  function HexByte(high: char, low: char): Byte
    requires HexValue(high).Some? && HexValue(low).Some?
  {
    16 * HexValue(high).value + HexValue(low).value
  }

  const MD5_DIGITS := 32

  function Md5Of(text: string): Option<seq<Byte>> {
    if |text| != MD5_DIGITS || !AllHex(text) then None else Some(Unhex(text))
  }

  method ParseMd5(text: string) returns (md5: Option<seq<Byte>>)
    ensures md5 == Md5Of(text)
  {
    if |text| != MD5_DIGITS || !AllHex(text) {
      return None;
    }
    var out: seq<Byte> := seq(16, _ => 0);
    for i := 0 to 16
      invariant HalfRead(text, i, out)
    {
      UnhexStep(text, i, out);
      out := out[i := HexByte(text[2 * i], text[2 * i + 1])];
    }
    WholeRead(text, out);
    md5 := Some(out);
  }

  /** The first `i` bytes are in place. */
  ghost predicate HalfRead(text: string, i: nat, out: seq<Byte>)
    requires |text| == MD5_DIGITS && AllHex(text) && i <= 16
  {
    |out| == 16 && out[..i] + Unhex(text[2 * i..]) == Unhex(text)
  }

  lemma UnhexStep(text: string, i: nat, out: seq<Byte>)
    requires |text| == MD5_DIGITS && AllHex(text) && i < 16 && HalfRead(text, i, out)
    ensures HalfRead(text, i + 1, out[i := HexByte(text[2 * i], text[2 * i + 1])])
  {
    var rest := text[2 * i..];
    var byte := HexByte(text[2 * i], text[2 * i + 1]);
    assert rest[0] == text[2 * i] && rest[1] == text[2 * i + 1] && rest[2..] == text[2 * (i + 1)..];
    assert Unhex(rest) == [byte] + Unhex(rest[2..]);
    assert out[i := byte][..i + 1] == out[..i] + [byte];
  }

  lemma WholeRead(text: string, out: seq<Byte>)
    requires |text| == MD5_DIGITS && AllHex(text) && HalfRead(text, 16, out)
    ensures out == Unhex(text)
  {
    assert out[..16] == out && text[32..] == "";
  }

  lemma HexReads(n: nat)
    requires n < 16
    ensures HexValue(RenditionKeys.Digit(n)) == Some(n)
    ensures IsWord([RenditionKeys.Digit(n)]) && RenditionKeys.Digit(n) != '='
  {
  }

  lemma ByteIsRead(b: Byte)
    ensures var high, low := RenditionKeys.Digit(b / 16), RenditionKeys.Digit(b % 16);
      HexValue(high).Some? && HexValue(low).Some? && HexByte(high, low) == b
  {
    HexReads(b / 16);
    HexReads(b % 16);
  }

  lemma UnhexCons(text: string)
    requires |text| >= 2
    requires HexValue(text[0]).Some? && HexValue(text[1]).Some? && AllHex(text[2..])
    ensures AllHex(text) && Unhex(text) == [HexByte(text[0], text[1])] + Unhex(text[2..])
  {
    forall i | 0 <= i < |text| ensures HexValue(text[i]).Some? {
      if i >= 2 {
        assert text[i] == text[2..][i - 2];
      }
    }
  }

  lemma {:induction false} HexIsRead(bytes: seq<Byte>)
    ensures AllHex(RenditionKeys.Hex(bytes)) && Unhex(RenditionKeys.Hex(bytes)) == bytes
  {
    if bytes == [] {
    } else {
      HexIsRead(bytes[1..]);
      ByteIsRead(bytes[0]);
      assert RenditionKeys.Hex(bytes)[2..] == RenditionKeys.Hex(bytes[1..]);
      UnhexCons(RenditionKeys.Hex(bytes));
    }
  }

  // Capitals or not.

  function LowerCase(c: char): char {
    if 'A' <= c <= 'Z' then c - 'A' + 'a' else c
  }

  ghost predicate SameButCase(a: string, b: string) {
    |a| == |b| && forall i :: 0 <= i < |a| ==> LowerCase(a[i]) == LowerCase(b[i])
  }

  lemma {:induction false} UnhexInAnyCase(a: string, b: string)
    requires SameButCase(a, b) && AllHex(b)
    ensures AllHex(a) && Unhex(a) == Unhex(b)
  {
    forall i | 0 <= i < |a| ensures HexValue(a[i]).Some? && HexValue(a[i]) == HexValue(b[i]) {
      assert LowerCase(a[i]) == LowerCase(b[i]);
    }
    if |a| >= 2 {
      UnhexInAnyCase(a[2..], b[2..]);
    }
  }

  /** A printed digest reads back, in capitals or not. */
  lemma HexInAnyCase(key: string, bytes: seq<Byte>)
    requires SameButCase(key, RenditionKeys.Hex(bytes))
    ensures AllHex(key) && Unhex(key) == bytes
  {
    HexIsRead(bytes);
    UnhexInAnyCase(key, RenditionKeys.Hex(bytes));
  }

  lemma HexHasNo(text: string)
    requires AllHex(text)
    ensures '=' !in text && '\n' !in text && forall i :: 0 <= i < |text| ==> !Whitespace(text[i])
  {
    assert HexValue('=') == None && HexValue('\n') == None;
  }

  // ---- Entries ----

  /** Every length, or what is wrong with the first that cannot be read. */
  function ReadAll(tokens: seq<string>): Outcome<seq<real>> {
    if tokens == [] then Value([])
    else match ParseDuration(tokens[0])
      case Malformed => Malformed
      case Panic => Panic
      case Value(length) =>
        match ReadAll(tokens[1..])
        case Value(lengths) => Value([length] + lengths)
        case other => other
  }

  function ParseLengths(value: string): Outcome<seq<real>> {
    match ReadAll(Words(value))
    case Value(lengths) => if lengths == [] then Malformed else Value(lengths)
    case other => other
  }

  /** What a line says; blank lines, comments and sections say nothing. */
  function EntryOf(line: string): Outcome<(seq<Byte>, seq<real>)> {
    var trimmed := Trim(line);
    if trimmed == "" || trimmed[0] == ';' || trimmed[0] == '[' then Malformed
    else match SplitOnce(trimmed, '=')
      case None => Malformed
      case Some((key, value)) =>
        match Md5Of(Trim(key))
        case None => Malformed
        case Some(md5) =>
          match ParseLengths(value)
          case Malformed => Malformed
          case Panic => Panic
          case Value(lengths) => Value((md5, lengths))
  }

  // ---- The database ----

  /** The database of some lines, or `None` where reading aborts. */
  function FromLines(lines: seq<string>): Option<Database> {
    if lines == [] then Some(map[])
    else Added(FromLines(lines[..|lines| - 1]), EntryOf(lines[|lines| - 1]))
  }

  function Added(db: Option<Database>, entry: Outcome<(seq<Byte>, seq<real>)>): Option<Database> {
    if db == None then None
    else match entry
      case Malformed => db
      case Panic => None
      case Value((md5, lengths)) => Some(db.value[md5 := lengths])
  }

  function Over(below: Option<Database>, above: Option<Database>): Option<Database> {
    if below.Some? && above.Some? then Some(below.value + above.value) else None
  }

  method Parse(text: string) returns (db: Option<Database>)
    ensures db == FromLines(Lines(text))
  {
    var lines := Lines(text);
    var byMd5: Database := map[];
    for i := 0 to |lines|
      invariant FromLines(lines[..i]) == Some(byMd5)
    {
      NextLine(lines, i);
      var line := Trim(lines[i]);
      if line == "" || line[0] == ';' || line[0] == '[' {
        continue;
      }
      var parts := SplitOnce(line, '=');
      if parts == None {
        continue;
      }
      var (key, value) := parts.value;
      var md5 := ParseMd5(Trim(key));
      if md5 == None {
        continue;
      }
      var lengths := ParseLengths(value);
      if lengths == Panic {
        PanicStays(lines, i + 1);
        return None;
      }
      if lengths == Malformed {
        continue;
      }
      byMd5 := byMd5[md5.value := lengths.value];
    }
    assert lines[..|lines|] == lines;
    db := Some(byMd5);
  }

  lemma NextLine(lines: seq<string>, i: nat)
    requires i < |lines|
    ensures FromLines(lines[..i + 1]) == Added(FromLines(lines[..i]), EntryOf(lines[i]))
  {
    assert lines[..i + 1][..i] == lines[..i];
  }

  lemma {:induction false} PanicStays(lines: seq<string>, i: nat)
    requires i <= |lines| && FromLines(lines[..i]) == None
    ensures FromLines(lines) == None
    decreases |lines| - i
  {
    if i < |lines| {
      NextLine(lines, i);
      PanicStays(lines, i + 1);
    } else {
      assert lines[..i] == lines;
    }
  }

  function Subtune(db: Database, md5: seq<Byte>, subtune: nat): Option<real> {
    if subtune == 0 || md5 !in db || subtune - 1 >= |db[md5]| then None else Some(db[md5][subtune - 1])
  }

  // ---- Reading is a homomorphism ----

  /** Reading lines after lines is reading both, the later over the earlier. */
  lemma {:induction false} ParseConcat(a: seq<string>, b: seq<string>)
    ensures FromLines(a + b) == Over(FromLines(a), FromLines(b))
    decreases |b|
  {
    if b == [] {
      assert a + b == a;
      if FromLines(a).Some? {
        assert FromLines(a).value + map[] == FromLines(a).value;
      }
    } else {
      var last := |b| - 1;
      ParseConcat(a, b[..last]);
      assert (a + b)[..|a + b| - 1] == a + b[..last] && (a + b)[|a + b| - 1] == b[last];
      OverAdded(FromLines(a), FromLines(b[..last]), EntryOf(b[last]));
    }
  }

  lemma OverAdded(below: Option<Database>, above: Option<Database>, entry: Outcome<(seq<Byte>, seq<real>)>)
    ensures Added(Over(below, above), entry) == Over(below, Added(above, entry))
  {
    if below.Some? && above.Some? && entry.Value? {
      var (md5, lengths) := entry.value;
      assert (below.value + above.value)[md5 := lengths] == below.value + above.value[md5 := lengths];
    }
  }

  /** A line that says nothing may stand anywhere. */
  lemma IgnoredAnywhere(a: seq<string>, line: string, b: seq<string>)
    requires EntryOf(line) == Malformed
    ensures FromLines(a + [line] + b) == FromLines(a + b)
  {
    ParseConcat(a + [line], b);
    ParseConcat(a, b);
    assert (a + [line])[..|a|] == a;
  }

  /** Token `i` is well formed but too long, behind only such as read. */
  ghost predicate OverflowsAt(tokens: seq<string>, i: nat) {
    i < |tokens| && Overflows(tokens[i]) && forall j :: 0 <= j < i ==> Reads(tokens[j])
  }

  ghost predicate FirstOverflows(tokens: seq<string>) {
    exists i: nat :: OverflowsAt(tokens, i)
  }

  lemma {:induction false} ReadAllAborts(tokens: seq<string>)
    ensures ReadAll(tokens) == Panic <==> FirstOverflows(tokens)
  {
    if tokens == [] {
    } else {
      TokenReads(tokens[0]);
      ReadAllAborts(tokens[1..]);
      if Reads(tokens[0]) {
        OverflowsLater(tokens);
      } else {
        OverflowsNow(tokens);
      }
    }
  }

  lemma OverflowsNow(tokens: seq<string>)
    requires tokens != [] && !Reads(tokens[0])
    ensures FirstOverflows(tokens) <==> Overflows(tokens[0])
  {
    if Overflows(tokens[0]) {
      assert OverflowsAt(tokens, 0);
    }
  }

  lemma OverflowsLater(tokens: seq<string>)
    requires tokens != [] && Reads(tokens[0]) && !Overflows(tokens[0])
    ensures FirstOverflows(tokens) <==> FirstOverflows(tokens[1..])
  {
    var rest := tokens[1..];
    if i: nat :| OverflowsAt(rest, i) {
      assert OverflowsAt(tokens, i + 1);
    }
    if i: nat :| OverflowsAt(tokens, i) {
      assert forall j :: 0 <= j < i - 1 ==> rest[j] == tokens[j + 1];
      assert OverflowsAt(rest, i - 1);
    }
  }

  /** The line is an entry with a valid key, and has such a length. */
  ghost predicate Aborts(line: string) {
    var trimmed := Trim(line);
    && trimmed != "" && trimmed[0] != ';' && trimmed[0] != '['
    && match SplitOnce(trimmed, '=')
       case None => false
       case Some((key, value)) => |Trim(key)| == MD5_DIGITS && AllHex(Trim(key)) && FirstOverflows(Words(value))
  }

  lemma EntryAborts(line: string)
    ensures EntryOf(line) == Panic <==> Aborts(line)
  {
    var trimmed := Trim(line);
    if trimmed != "" && SplitOnce(trimmed, '=').Some? {
      ReadAllAborts(Words(SplitOnce(trimmed, '=').value.1));
    }
  }

  /** Reading aborts, and costs every tune its lengths, if and only if some line is
      an entry with a valid key and, behind only lengths that read, a well-formed
      one of 2^64 seconds or more. */
  lemma {:induction false} AbortsExactly(lines: seq<string>)
    ensures FromLines(lines) == None <==> exists line :: line in lines && Aborts(line)
  {
    if lines == [] {
    } else {
      var front, last := lines[..|lines| - 1], lines[|lines| - 1];
      assert lines == front + [last];
      EntryAborts(last);
      AbortsExactly(front);
    }
  }

  ghost predicate Names(line: string, md5: seq<Byte>) {
    EntryOf(line).Value? && EntryOf(line).value.0 == md5
  }

  // The entries of all lines, and the databases that grow by one of them each.

  function Entries(lines: seq<string>): (entries: seq<Outcome<(seq<Byte>, seq<real>)>>)
    ensures |entries| == |lines|
  {
    seq(|lines|, k requires 0 <= k < |lines| => EntryOf(lines[k]))
  }

  function Databases(lines: seq<string>): (dbs: seq<Option<Database>>)
    ensures |dbs| == |lines| + 1
  {
    seq(|lines| + 1, k requires 0 <= k <= |lines| => FromLines(lines[..k]))
  }

  ghost predicate Grow(dbs: seq<Option<Database>>, entries: seq<Outcome<(seq<Byte>, seq<real>)>>) {
    && |dbs| == |entries| + 1
    && forall k :: 0 <= k < |entries| ==> dbs[k + 1] == Added(dbs[k], entries[k])
  }

  ghost predicate Says(entry: Outcome<(seq<Byte>, seq<real>)>, md5: seq<Byte>) {
    entry.Value? && entry.value.0 == md5
  }

  ghost predicate SaysLast(entries: seq<Outcome<(seq<Byte>, seq<real>)>>, i: nat, md5: seq<Byte>) {
    i < |entries| && Says(entries[i], md5) && forall k :: i < k < |entries| ==> !Says(entries[k], md5)
  }

  lemma DatabasesGrow(lines: seq<string>)
    ensures Grow(Databases(lines), Entries(lines))
    ensures Databases(lines)[|lines|] == FromLines(lines)
  {
    assert lines[..|lines|] == lines;
    var dbs, entries := Databases(lines), Entries(lines);
    forall k | 0 <= k < |lines| ensures dbs[k + 1] == Added(dbs[k], entries[k]) {
      NextLine(lines, k);
    }
  }

  lemma LinesSay(lines: seq<string>, i: nat, md5: seq<Byte>)
    requires i < |lines| && Names(lines[i], md5) && forall j :: i < j < |lines| ==> !Names(lines[j], md5)
    ensures SaysLast(Entries(lines), i, md5) && Entries(lines)[i] == EntryOf(lines[i])
  {
  }

  lemma {:induction false} LastAdded(
    dbs: seq<Option<Database>>, entries: seq<Outcome<(seq<Byte>, seq<real>)>>, i: nat, n: nat, md5: seq<Byte>)
    requires i < n <= |entries| && Grow(dbs, entries) && SaysLast(entries, i, md5) && dbs[n].Some?
    ensures md5 in dbs[n].value && dbs[n].value[md5] == entries[i].value.1
  {
    assert dbs[n - 1 + 1] == Added(dbs[n - 1], entries[n - 1]);
    if i < n - 1 {
      LastAdded(dbs, entries, i, n - 1, md5);
    }
  }

  /** The last line that names a tune gives its lengths. */
  lemma {:induction false} LastEntryCounts(lines: seq<string>, i: nat, md5: seq<Byte>)
    requires FromLines(lines).Some? && i < |lines| && Names(lines[i], md5)
    requires forall j :: i < j < |lines| ==> !Names(lines[j], md5)
    ensures md5 in FromLines(lines).value && FromLines(lines).value[md5] == EntryOf(lines[i]).value.1
  {
    DatabasesGrow(lines);
    LinesSay(lines, i, md5);
    LastAdded(Databases(lines), Entries(lines), i, |lines|, md5);
  }

  /** A tune no line names is not in the database. */
  lemma {:induction false} OnlyEntriesCount(lines: seq<string>, md5: seq<Byte>)
    requires FromLines(lines).Some? && forall j :: 0 <= j < |lines| ==> !Names(lines[j], md5)
    ensures md5 !in FromLines(lines).value
  {
    if lines == [] {
    } else {
      OnlyEntriesCount(lines[..|lines| - 1], md5);
      assert !Names(lines[|lines| - 1], md5);
    }
  }

  // ---- Texts ----

  lemma StrippedSays(line: string)
    ensures EntryOf(StripReturn(line)) == EntryOf(line)
  {
    TrimStripped(line);
  }

  lemma OneLine(line: string)
    ensures FromLines([line]) == Added(Some(map[]), EntryOf(line))
  {
    assert [line][..0] == [];
  }

  /** A text over two texts' lines: both, the later over the earlier. */
  lemma {:induction false} TextsConcat(a: string, b: string)
    ensures FromLines(Lines(a + "\n" + b)) == Over(FromLines(Lines(a)), FromLines(Lines(b)))
    decreases |a|
  {
    var text := a + "\n" + b;
    match SplitOnce(a, '\n')
    case None =>
      SplitOnceIsUnique(a, '\n', b);
      ParseConcat([StripReturn(a)], Lines(b));
      OneLine(StripReturn(a));
      OneLine(a);
      StrippedSays(a);
    case Some((line, rest)) =>
      assert text == line + "\n" + (rest + "\n" + b);
      SplitOnceIsUnique(line, '\n', rest + "\n" + b);
      TextsConcat(rest, b);
      var first := [StripReturn(line)];
      ParseConcat(first, Lines(rest + "\n" + b));
      ParseConcat(first, Lines(rest));
      OverAssociates(FromLines(first), FromLines(Lines(rest)), FromLines(Lines(b)));
  }

  lemma OverAssociates(a: Option<Database>, b: Option<Database>, c: Option<Database>)
    ensures Over(a, Over(b, c)) == Over(Over(a, b), c)
  {
    if a.Some? && b.Some? && c.Some? {
      assert a.value + (b.value + c.value) == a.value + b.value + c.value;
    }
  }

  // ---- Printing ----

  /** A tune, its digest as it is written, and its lengths. */
  datatype Tune = Tune(md5: seq<Byte>, key: string, lengths: seq<Length>)

  /** The key is the digest in hexadecimal, in capitals or not; each length is one that a
      duration can hold. */
  ghost predicate Printable(tune: Tune) {
    Keyed(tune) && tune.lengths != [] && AllFit(tune.lengths)
  }

  ghost predicate AllPrintable(tunes: seq<Tune>) {
    forall i :: 0 <= i < |tunes| ==> Printable(tunes[i])
  }

  ghost predicate AllLengths(tunes: seq<Tune>) {
    forall i :: 0 <= i < |tunes| ==> AreLengths(tunes[i].lengths)
  }

  ghost predicate Keyed(tune: Tune) {
    |tune.md5| == 16 && SameButCase(tune.key, RenditionKeys.Hex(tune.md5))
  }

  ghost predicate AreLengths(lengths: seq<Length>) {
    forall i :: 0 <= i < |lengths| ==> IsLength(lengths[i])
  }

  ghost predicate AllFit(lengths: seq<Length>) {
    forall i :: 0 <= i < |lengths| ==> IsLength(lengths[i]) && Fits(lengths[i])
  }

  function Printed(lengths: seq<Length>): (tokens: seq<string>)
    ensures |tokens| == |lengths|
    ensures forall i :: 0 <= i < |tokens| ==> tokens[i] == Print(lengths[i])
  {
    if lengths == [] then [] else [Print(lengths[0])] + Printed(lengths[1..])
  }

  ghost function Seconds(lengths: seq<Length>): (seconds: seq<real>)
    requires AreLengths(lengths)
    ensures |seconds| == |lengths|
    ensures forall i :: 0 <= i < |lengths| ==> seconds[i] == Lasts(lengths[i])
  {
    seq(|lengths|, i requires 0 <= i < |lengths| => Lasts(lengths[i]))
  }

  function PrintTune(tune: Tune): string {
    tune.key + "=" + Joined(Printed(tune.lengths))
  }

  function PrintAll(tunes: seq<Tune>): string {
    if tunes == [] then "" else PrintTune(tunes[0]) + "\n" + PrintAll(tunes[1..])
  }

  /** The map a list of tunes stands for. */
  ghost function AsDatabase(tunes: seq<Tune>): Database
    requires AllLengths(tunes)
  {
    if tunes == [] then map[]
    else map[tunes[0].md5 := Seconds(tunes[0].lengths)] + AsDatabase(tunes[1..])
  }

  lemma {:induction false} LengthsRead(lengths: seq<Length>)
    requires AllFit(lengths)
    ensures ReadAll(Printed(lengths)) == Value(Seconds(lengths))
  {
    if lengths == [] {
    } else {
      var first, rest := lengths[0], lengths[1..];
      LengthsRead(rest);
      PrintedCons(first, rest, lengths);
      FittingReads(first);
      ReadAllCons(Print(first), Lasts(first), Printed(rest), Seconds(rest));
    }
  }

  lemma PrintedCons(first: Length, rest: seq<Length>, lengths: seq<Length>)
    requires lengths != [] && first == lengths[0] && rest == lengths[1..] && AreLengths(lengths)
    ensures Printed(lengths) == [Print(first)] + Printed(rest)
    ensures Seconds(lengths) == [Lasts(first)] + Seconds(rest)
  {
  }

  lemma FittingReads(l: Length)
    requires IsLength(l) && Fits(l)
    ensures ParseDuration(Print(l)) == Value(Lasts(l))
  {
    LengthReads(l);
    LessThanAMinute(l);
  }

  lemma ReadAllCons(token: string, length: real, tokens: seq<string>, lengths: seq<real>)
    requires ParseDuration(token) == Value(length) && ReadAll(tokens) == Value(lengths)
    ensures ReadAll([token] + tokens) == Value([length] + lengths)
  {
    assert ([token] + tokens)[1..] == tokens;
  }

  lemma {:induction false} JoinedEnds(lengths: seq<Length>)
    requires lengths != [] && AreLengths(lengths)
    ensures var text := Joined(Printed(lengths));
      text != "" && !Whitespace(text[|text| - 1]) && '\n' !in text
  {
    var tokens := Printed(lengths);
    PrintedLengthIsWord(lengths[0]);
    if |lengths| > 1 {
      JoinedEnds(lengths[1..]);
      assert tokens[1..] == Printed(lengths[1..]);
    }
  }

  lemma PrintedLengthsRead(lengths: seq<Length>)
    requires AllFit(lengths) && lengths != []
    ensures ParseLengths(Joined(Printed(lengths))) == Value(Seconds(lengths))
  {
    var tokens := Printed(lengths);
    forall i | 0 <= i < |tokens| ensures IsWord(tokens[i]) {
      PrintedLengthIsWord(lengths[i]);
    }
    WordsOfJoined(tokens);
    LengthsRead(lengths);
  }

  /** What an entry with a valid key says is what its list says. */
  function Said(md5: seq<Byte>, lengths: Outcome<seq<real>>): Outcome<(seq<Byte>, seq<real>)> {
    match lengths
    case Malformed => Malformed
    case Panic => Panic
    case Value(lengths) => Value((md5, lengths))
  }

  /** The line is an entry of these parts. */
  ghost predicate HasFields(line: string, trimmed: string, field: string, key: string, md5: seq<Byte>, value: string) {
    && Trim(line) == trimmed && trimmed != "" && trimmed[0] != ';' && trimmed[0] != '['
    && SplitOnce(trimmed, '=') == Some((field, value)) && Trim(field) == key && Md5Of(key) == Some(md5)
  }

  lemma FieldsRead(line: string, trimmed: string, field: string, key: string, md5: seq<Byte>, value: string)
    ensures HasFields(line, trimmed, field, key, md5, value) ==> EntryOf(line) == Said(md5, ParseLengths(value))
  {
  }

  lemma FieldsAmongBlanks(
    line: string, before: string, md5: seq<Byte>, key: string, between: string, value: string, after: string)
    requires |md5| == 16 && SameButCase(key, RenditionKeys.Hex(md5)) && value != "" && !Whitespace(value[|value| - 1])
    requires Blank(before) && Blank(between) && Blank(after)
    requires line == before + (key + between + "=" + value) + after
    ensures HasFields(line, key + between + "=" + value, key + between, key, md5, value)
  {
    KeyReads(key, md5);
    KeyTrims(key, between);
    LineTrims(before, key + between, value, after);
    SplitOnceIsUnique(key + between, '=', value);
  }

  lemma KeyReads(key: string, md5: seq<Byte>)
    requires |md5| == 16 && SameButCase(key, RenditionKeys.Hex(md5))
    ensures AllHex(key) && key != "" && Md5Of(key) == Some(md5)
  {
    HexInAnyCase(key, md5);
  }

  lemma KeyTrims(key: string, between: string)
    requires AllHex(key) && key != "" && Blank(between)
    ensures var field := key + between;
      Trim(field) == key && '=' !in field && field != "" && HexValue(field[0]).Some?
  {
    HexHasNo(key);
    assert "" + key + between == key + between;
    TrimPadded("", key, between);
    assert (key + between)[0] == key[0];
  }

  /** A line of a digest in hexadecimal and a list that does not end with a blank. */
  lemma EntryOfParts(line: string, md5: seq<Byte>, key: string, value: string)
    requires |md5| == 16 && SameButCase(key, RenditionKeys.Hex(md5)) && value != "" && !Whitespace(value[|value| - 1])
    requires line == key + "=" + value
    ensures EntryOf(line) == Said(md5, ParseLengths(value))
  {
    NoBlanks(line, key, value);
    EntryAmongBlanks(line, "", md5, key, "", value, "");
  }

  lemma NoBlanks(line: string, key: string, value: string)
    requires line == key + "=" + value
    ensures line == "" + (key + "" + "=" + value) + ""
  {
  }

  /** Blanks around it, or between the digest and the sign, do not matter. */
  lemma EntryAmongBlanks(
    line: string, before: string, md5: seq<Byte>, key: string, between: string, value: string, after: string)
    requires |md5| == 16 && SameButCase(key, RenditionKeys.Hex(md5)) && value != "" && !Whitespace(value[|value| - 1])
    requires Blank(before) && Blank(between) && Blank(after)
    requires line == before + (key + between + "=" + value) + after
    ensures EntryOf(line) == Said(md5, ParseLengths(value))
  {
    FieldsAmongBlanks(line, before, md5, key, between, value, after);
    FieldsRead(line, key + between + "=" + value, key + between, key, md5, value);
  }

  lemma LineTrims(before: string, field: string, value: string, after: string)
    requires field != "" && HexValue(field[0]).Some? && value != "" && !Whitespace(value[|value| - 1])
    requires Blank(before) && Blank(after)
    ensures var line := field + "=" + value;
      Trim(before + line + after) == line && line[0] != ';' && line[0] != '['
  {
    var line := field + "=" + value;
    assert line[0] == field[0] && line[|line| - 1] == value[|value| - 1];
    assert HexValue(';') == None && HexValue('[') == None;
    TrimPadded(before, line, after);
  }

  /** A printed tune is read back. */
  lemma PrintedTuneReads(tune: Tune)
    requires Printable(tune)
    ensures EntryOf(PrintTune(tune)) == Value((tune.md5, Seconds(tune.lengths)))
    ensures '\n' !in PrintTune(tune)
  {
    HexInAnyCase(tune.key, tune.md5);
    HexHasNo(tune.key);
    JoinedEnds(tune.lengths);
    PrintedLengthsRead(tune.lengths);
    EntryOfParts(PrintTune(tune), tune.md5, tune.key, Joined(Printed(tune.lengths)));
  }

  /** Printing any tunes and reading the text gives back their map. */
  lemma {:induction false} RoundTrip(tunes: seq<Tune>)
    requires AllPrintable(tunes)
    ensures FromLines(Lines(PrintAll(tunes))) == Some(AsDatabase(tunes))
  {
    if tunes == [] {
    } else {
      var first, rest := tunes[0], tunes[1..];
      var line := PrintTune(first);
      PrintedTuneReads(first);
      RoundTrip(rest);
      SplitOnceIsUnique(line, '\n', PrintAll(rest));
      ParseConcat([StripReturn(line)], Lines(PrintAll(rest)));
      OneLine(StripReturn(line));
      StrippedSays(line);
    }
  }

  // ---- Looking up ----

  lemma {:induction false} DatabaseHas(tunes: seq<Tune>, i: nat)
    requires AllLengths(tunes)
    requires i < |tunes| && forall j :: i < j < |tunes| ==> tunes[j].md5 != tunes[i].md5
    ensures tunes[i].md5 in AsDatabase(tunes) && AsDatabase(tunes)[tunes[i].md5] == Seconds(tunes[i].lengths)
  {
    if i == 0 {
      HasNoOther(tunes[1..], tunes[0].md5);
    } else {
      DatabaseHas(tunes[1..], i - 1);
    }
  }

  lemma {:induction false} HasNoOther(tunes: seq<Tune>, md5: seq<Byte>)
    requires AllLengths(tunes)
    requires forall j :: 0 <= j < |tunes| ==> tunes[j].md5 != md5
    ensures md5 !in AsDatabase(tunes)
  {
    if tunes == [] {
    } else {
      assert tunes[0].md5 != md5;
      HasNoOther(tunes[1..], md5);
    }
  }

  /** Subtune `n` of a printed tune is the `n`-th of its lengths, counted from one,
      and there is none before the first or behind the last. */
  lemma SubtuneOfPrinted(tunes: seq<Tune>, i: nat, n: nat)
    requires AllPrintable(tunes)
    requires i < |tunes| && forall j :: i < j < |tunes| ==> tunes[j].md5 != tunes[i].md5
    ensures FromLines(Lines(PrintAll(tunes))).Some?
    ensures var lengths := tunes[i].lengths;
      Subtune(FromLines(Lines(PrintAll(tunes))).value, tunes[i].md5, n)
      == if 1 <= n <= |lengths| then Some(Lasts(lengths[n - 1])) else None
  {
    RoundTrip(tunes);
    SubtuneOfDatabase(tunes, i, n);
  }

  lemma SubtuneOfDatabase(tunes: seq<Tune>, i: nat, n: nat)
    requires AllLengths(tunes)
    requires i < |tunes| && forall j :: i < j < |tunes| ==> tunes[j].md5 != tunes[i].md5
    ensures var lengths := tunes[i].lengths;
      Subtune(AsDatabase(tunes), tunes[i].md5, n)
      == if 1 <= n <= |lengths| then Some(Lasts(lengths[n - 1])) else None
  {
    DatabaseHas(tunes, i);
  }

  // ---- One line that costs every tune ----

  /** A line whose one length is longer than a duration can hold is not skipped
      but aborts the reader, whatever else the text says. */
  lemma TooLongAborts(a: string, tune: Tune, l: Length, b: string)
    requires Keyed(tune) && tune.lengths == [l] && IsLength(l) && !Fits(l) && l.minutes < U64_LIMIT
    ensures FromLines(Lines(a + "\n" + PrintTune(tune) + "\n" + b)) == None
  {
    var line := PrintTune(tune);
    TooLongLine(tune, l);
    TextsConcat(a + "\n" + line, b);
    TextsConcat(a, line);
    SplitLine(line);
    OneLine(line);
  }

  lemma SplitLine(line: string)
    requires '\n' !in line && line != ""
    ensures Lines(line) == [line]
  {
  }

  lemma TooLongLine(tune: Tune, l: Length)
    requires Keyed(tune) && tune.lengths == [l] && IsLength(l) && !Fits(l) && l.minutes < U64_LIMIT
    ensures EntryOf(PrintTune(tune)) == Panic && '\n' !in PrintTune(tune) && PrintTune(tune) != ""
  {
    var value := Print(l);
    HexInAnyCase(tune.key, tune.md5);
    HexHasNo(tune.key);
    PrintedLengthIsWord(l);
    LengthReads(l);
    assert Printed([l]) == [value] && Joined([value]) == value;
    WordsOfJoined([value]);
    EntryOfParts(PrintTune(tune), tune.md5, tune.key, value);
  }
}

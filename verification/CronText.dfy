/** The crontab that a schedule is printed as, and what its lines say when they are read
    (schedule/schedule.go:208-297, command/chaosmonkey.go:181-183, 283-318). */
module CronText {
  import opened Domain
  import opened Groups
  import opened Entries
  import opened UtcTime

  // ---------------------------------------------------------------- numbers

  function Decimal(n: nat): (s: string)
    ensures s != ""
  {
    if n < 10 then [(n as char) + '0'] else Decimal(n / 10) + [((n % 10) as char) + '0']
  }

  predicate IsDigit(c: char) {
    '0' <= c <= '9'
  }

  function ReadDecimal(s: string): Option<nat> {
    if s == "" then None
    else
      var last := s[|s| - 1];
      if !IsDigit(last) then None
      else if |s| == 1 then Some((last - '0') as nat)
      else
        match ReadDecimal(s[..|s| - 1])
        case None => None
        case Some(n) => Some(10 * n + (last - '0') as nat)
  }

  lemma {:induction false} DecimalRoundTrip(n: nat)
    ensures ReadDecimal(Decimal(n)) == Some(n) && IsPlain(Decimal(n))
  {
    if n >= 10 {
      DecimalRoundTrip(n / 10);
      var s := Decimal(n);
      assert s[..|s| - 1] == Decimal(n / 10);
    }
  }

  /** Numbers are printed to the base of ten, the last digit last and without leading zeros. */
  lemma DecimalDigits(n: nat, digit: nat)
    requires digit < 10
    ensures Decimal(10 * n + digit) == (if n == 0 then "" else Decimal(n)) + ["0123456789"[digit]]
  {
    assert (10 * n + digit) / 10 == n && (10 * n + digit) % 10 == digit;
    assert "0123456789"[digit] == (digit as char) + '0';
  }

  // ---------------------------------------------------------------- words

  predicate IsBlank(c: char) {
    c == ' ' || c == '\t' || c == '\n'
  }

  predicate IsBlankFree(s: string) {
    forall i :: 0 <= i < |s| ==> !IsBlank(s[i])
  }

  predicate IsPlain(s: string) {
    s != "" && IsBlankFree(s)
  }

  /** The length of the word that s begins with. */
  function WordLength(s: string): (n: nat)
    ensures n <= |s| && IsBlankFree(s[..n]) && (n < |s| ==> IsBlank(s[n]))
  {
    if s == "" || IsBlank(s[0]) then 0
    else
      var n := 1 + WordLength(s[1..]);
      assert s[..n] == [s[0]] + s[1..][..n - 1];
      n
  }

  /** The words between blanks. */
  function Words(s: string): seq<string>
    decreases |s|
  {
    if s == "" then []
    else if IsBlank(s[0]) then Words(s[1..])
    else
      var n := WordLength(s);
      [s[..n]] + Words(s[n..])
  }

  lemma {:induction false} WordLengthBefore(a: string, b: string)
    requires b != "" ==> IsBlank(b[0])
    ensures WordLength(a + b) == WordLength(a)
    decreases |a|
  {
    if a == "" {
      assert a + b == b;
    } else if !IsBlank(a[0]) {
      assert (a + b)[1..] == a[1..] + b;
      WordLengthBefore(a[1..], b);
    }
  }

  lemma SplitBefore(a: string, b: string, n: nat)
    requires n <= |a|
    ensures (a + b)[..n] == a[..n] && (a + b)[n..] == a[n..] + b
  {
  }

  /** A blank separates the words before it from those after it. */
  lemma {:induction false} WordsConcat(a: string, b: string)
    requires b != "" ==> IsBlank(b[0])
    ensures Words(a + b) == Words(a) + Words(b)
    decreases |a|
  {
    if a == "" {
      assert a + b == b;
    } else if IsBlank(a[0]) {
      assert (a + b)[1..] == a[1..] + b;
      WordsConcat(a[1..], b);
    } else {
      var n := WordLength(a);
      WordLengthBefore(a, b);
      SplitBefore(a, b, n);
      WordsConcat(a[n..], b);
    }
  }

  lemma {:induction false} WordLengthOfPlain(w: string)
    requires IsBlankFree(w)
    ensures WordLength(w) == |w|
    decreases |w|
  {
    if w != "" { WordLengthOfPlain(w[1..]); }
  }

  lemma WordsOfPlain(w: string)
    requires IsPlain(w)
    ensures Words(w) == [w]
  {
    WordLengthOfPlain(w);
    assert w[..|w|] == w;
  }

  /** One more word after a blank. */
  lemma WordsAdd(a: string, w: string)
    requires IsPlain(w)
    ensures Words(a + " " + w) == Words(a) + [w]
  {
    assert a + " " + w == a + (" " + w);
    WordsConcat(a, " " + w);
    assert (" " + w)[1..] == w;
    WordsOfPlain(w);
  }

  lemma {:induction false} WordsArePlain(s: string)
    ensures forall i :: 0 <= i < |Words(s)| ==> IsPlain(Words(s)[i])
    decreases |s|
  {
    if s != "" {
      if IsBlank(s[0]) {
        WordsArePlain(s[1..]);
      } else {
        WordsArePlain(s[WordLength(s)..]);
      }
    }
  }

  // ---------------------------------------------------------------- the command

  function WithFlag(cmd: string, flag: string, value: Option<string>): string {
    if value.Some? then cmd + " " + flag + value.value else cmd
  }

  const CLUSTER := "--cluster="
  const STACK := "--stack="
  const REGION := "--region="

  function TerminateCommand(path: string, g: Group): string {
    var cmd := path + " " + g.app + " " + g.account;
    WithFlag(WithFlag(WithFlag(cmd, CLUSTER, g.Cluster()), STACK, g.Stack()), REGION, g.Region())
  }

  function FlagText(flag: string, value: string): string {
    if value == "" then "" else " --" + flag + "=" + value
  }

  /** The text of the command: the flags that are present, cluster before stack before region. */
  lemma CommandText(path: string, g: Group)
    ensures TerminateCommand(path, g)
         == path + " " + g.app + " " + g.account + FlagText("cluster", g.cluster) + FlagText("stack", g.stack) + FlagText("region", g.region)
  {
    var cmd := path + " " + g.app + " " + g.account;
    FlagIsText(cmd, CLUSTER, "cluster", g.cluster);
    var withCluster := cmd + FlagText("cluster", g.cluster);
    FlagIsText(withCluster, STACK, "stack", g.stack);
    FlagIsText(withCluster + FlagText("stack", g.stack), REGION, "region", g.region);
  }

  lemma FlagIsText(cmd: string, flag: string, name: string, value: string)
    requires flag == "--" + name + "="
    ensures WithFlag(cmd, flag, if value == "" then None else Some(value)) == cmd + FlagText(name, value)
  {
    if value == "" {
      assert cmd + "" == cmd;
    } else {
      assert " " + flag == " --" + name + "=";
      assert cmd + " " + flag + value == cmd + (" " + flag + value);
    }
  }

  datatype Args = Args(positional: seq<string>, cluster: string, stack: string, region: string)

  predicate IsFlag(w: string) {
    |w| > 1 && w[0] == '-'
  }

  predicate HasPrefix(w: string, prefix: string) {
    |prefix| <= |w| && w[..|prefix|] == prefix
  }

  /** The arguments on a command line; a flag other than the three is refused. */
  function ReadArgs(words: seq<string>): Option<Args> {
    if words == [] then Some(Args([], "", "", ""))
    else
      match ReadArgs(words[..|words| - 1])
      case None => None
      case Some(args) => ReadArg(args, words[|words| - 1])
  }

  function ReadArg(args: Args, w: string): Option<Args> {
    if !IsFlag(w) then Some(args.(positional := args.positional + [w]))
    else if HasPrefix(w, CLUSTER) then Some(args.(cluster := w[|CLUSTER|..]))
    else if HasPrefix(w, STACK) then Some(args.(stack := w[|STACK|..]))
    else if HasPrefix(w, REGION) then Some(args.(region := w[|REGION|..]))
    else None
  }

  /** The group that a command line asks for: an executable, two arguments and optional flags. */
  function ReadCommand(words: seq<string>): Option<Group> {
    if words == [] then None
    else
      match ReadArgs(words[1..])
      case None => None
      case Some(args) =>
        if |args.positional| != 2 then None
        else Some(Group(args.positional[0], args.positional[1], args.region, args.stack, args.cluster))
  }

  predicate IsArgument(w: string) {
    IsPlain(w) && !IsFlag(w)
  }

  /** Nothing in the group's names can be taken for something else on a command line. */
  predicate IsPrintable(g: Group) {
    && IsArgument(g.app) && IsArgument(g.account)
    && IsBlankFree(g.region) && IsBlankFree(g.stack) && IsBlankFree(g.cluster)
  }

  function FlagWords(flag: string, value: Option<string>): seq<string> {
    if value.Some? then [flag + value.value] else []
  }

  function ArgWords(g: Group): seq<string> {
    [g.app, g.account] + FlagWords(CLUSTER, g.Cluster()) + FlagWords(STACK, g.Stack()) + FlagWords(REGION, g.Region())
  }

  lemma WordsWithFlag(cmd: string, flag: string, value: Option<string>)
    requires IsPlain(flag) && (value.Some? ==> IsBlankFree(value.value))
    ensures Words(WithFlag(cmd, flag, value)) == Words(cmd) + FlagWords(flag, value)
  {
    if value.Some? {
      assert cmd + " " + flag + value.value == cmd + " " + (flag + value.value);
      WordsAdd(cmd, flag + value.value);
    }
  }

  lemma WordsOfCommand(path: string, g: Group)
    requires IsPlain(path) && IsPrintable(g)
    ensures Words(TerminateCommand(path, g)) == [path] + ArgWords(g)
  {
    WordsOfPlain(path);
    WordsAdd(path, g.app);
    WordsAdd(path + " " + g.app, g.account);
    WordsWithFlags(path + " " + g.app + " " + g.account, g);
    assert [path] + [g.app] + [g.account] == [path] + [g.app, g.account];
  }

  lemma WordsWithFlags(cmd: string, g: Group)
    requires IsPrintable(g)
    ensures Words(WithFlag(WithFlag(WithFlag(cmd, CLUSTER, g.Cluster()), STACK, g.Stack()), REGION, g.Region()))
         == Words(cmd) + FlagWords(CLUSTER, g.Cluster()) + FlagWords(STACK, g.Stack()) + FlagWords(REGION, g.Region())
  {
    var withCluster := WithFlag(cmd, CLUSTER, g.Cluster());
    var withStack := WithFlag(withCluster, STACK, g.Stack());
    WordsWithFlag(cmd, CLUSTER, g.Cluster());
    WordsWithFlag(withCluster, STACK, g.Stack());
    WordsWithFlag(withStack, REGION, g.Region());
  }

  lemma ReadOneMore(words: seq<string>, w: string)
    ensures ReadArgs(words + [w]) == if ReadArgs(words).None? then None else ReadArg(ReadArgs(words).value, w)
  {
    assert (words + [w])[..|words + [w]| - 1] == words;
  }

  lemma ReadFlagWords(words: seq<string>, flag: string, value: Option<string>)
    requires ReadArgs(words).Some? && (flag == CLUSTER || flag == STACK || flag == REGION)
    ensures var args := ReadArgs(words).value;
            ReadArgs(words + FlagWords(flag, value))
            == if value.None? then Some(args)
               else if flag == CLUSTER then Some(args.(cluster := value.value))
               else if flag == STACK then Some(args.(stack := value.value))
               else Some(args.(region := value.value))
  {
    if value.None? {
      assert words + [] == words;
    } else {
      var w := flag + value.value;
      ReadOneMore(words, w);
      assert w[..|flag|] == flag && w[|flag|..] == value.value;
      assert w[2] == flag[2];
      assert CLUSTER[2] == 'c' && STACK[2] == 's' && REGION[2] == 'r';
    }
  }

  lemma ReadTwoArguments(app: string, account: string)
    requires IsArgument(app) && IsArgument(account)
    ensures ReadArgs([app, account]) == Some(Args([app, account], "", "", ""))
  {
    ReadOneMore([app], account);
    ReadOneMore([], app);
    assert [] + [app] == [app] && [app] + [account] == [app, account];
  }

  lemma ReadThreeFlags(words: seq<string>, args: Args, g: Group)
    requires ReadArgs(words) == Some(args) && args.cluster == args.stack == args.region == ""
    ensures ReadArgs(words + FlagWords(CLUSTER, g.Cluster()) + FlagWords(STACK, g.Stack()) + FlagWords(REGION, g.Region()))
         == Some(Args(args.positional, g.cluster, g.stack, g.region))
  {
    var withCluster := words + FlagWords(CLUSTER, g.Cluster());
    var withStack := withCluster + FlagWords(STACK, g.Stack());
    ReadFlagWords(words, CLUSTER, g.Cluster());
    ReadFlagWords(withCluster, STACK, g.Stack());
    ReadFlagWords(withStack, REGION, g.Region());
  }

  lemma ReadArgWords(g: Group)
    requires IsPrintable(g)
    ensures ReadArgs(ArgWords(g)) == Some(Args([g.app, g.account], g.cluster, g.stack, g.region))
  {
    ReadTwoArguments(g.app, g.account);
    ReadThreeFlags([g.app, g.account], Args([g.app, g.account], "", "", ""), g);
  }

  lemma ReadCommandWords(path: string, words: seq<string>, g: Group)
    requires ReadArgs(words) == Some(Args([g.app, g.account], g.cluster, g.stack, g.region))
    ensures ReadCommand([path] + words) == Some(g)
  {
    assert ([path] + words)[1..] == words;
  }

  predicate AllPlain(words: seq<string>) {
    forall i :: 0 <= i < |words| ==> IsPlain(words[i])
  }

  predicate ArePrintable(args: Args) {
    && (forall i :: 0 <= i < |args.positional| ==> IsArgument(args.positional[i]))
    && IsBlankFree(args.cluster) && IsBlankFree(args.stack) && IsBlankFree(args.region)
  }

  lemma {:induction false} ReadArgsArePrintable(words: seq<string>)
    requires AllPlain(words) && ReadArgs(words).Some?
    ensures ArePrintable(ReadArgs(words).value)
    decreases |words|
  {
    if words != [] {
      ReadArgsArePrintable(words[..|words| - 1]);
      assert IsPlain(words[|words| - 1]);
    }
  }

  /** Reading the words of the printed command gives the group back exactly when it is printable. */
  lemma CommandRoundTripIff(path: string, g: Group)
    requires IsPlain(path)
    ensures ReadCommand(Words(TerminateCommand(path, g))) == Some(g) <==> IsPrintable(g)
  {
    var words := Words(TerminateCommand(path, g));
    if ReadCommand(words) == Some(g) {
      WordsArePlain(TerminateCommand(path, g));
      assert AllPlain(words[1..]);
      ReadArgsArePrintable(words[1..]);
    }
    if IsPrintable(g) {
      WordsOfCommand(path, g);
      ReadArgWords(g);
      ReadCommandWords(path, ArgWords(g), g);
    }
  }

  // ---------------------------------------------------------------- the line

  function TimeFields(t: int): string {
    Decimal(Minute(t)) + " " + Decimal(Hour(t)) + " " + Decimal(Day(t)) + " " + Decimal(Month(t)) + " " + Decimal(DayOfWeek(t))
  }

  function Line(e: Entry, path: string, account: string): string {
    TimeFields(e.time) + " " + account + " " + TerminateCommand(path, e.group)
  }

  /** The instant in the year at which the fields hold. */
  function ReadFields(year: int, words: seq<string>): Option<int>
    requires |words| == 5
  {
    var minute, hour, day, month, weekday :=
      ReadDecimal(words[0]), ReadDecimal(words[1]), ReadDecimal(words[2]), ReadDecimal(words[3]), ReadDecimal(words[4]);
    if minute.None? || hour.None? || day.None? || month.None? || weekday.None? then None
    else InstantAt(year, minute.value, hour.value, day.value, month.value, weekday.value)
  }

  function InstantAt(year: int, minute: int, hour: int, day: int, month: int, weekday: int): Option<int> {
    if !IsDate(year, month, day) || !(0 <= hour < 24 && 0 <= minute < 60) then None
    else
      var t := InstantOf(year, month, day, hour, minute);
      if DayOfWeek(t) == weekday then Some(t) else None
  }

  /** What a line does in the given year: five fields, the account, the command. */
  function ReadLine(year: int, line: string): Option<Entry> {
    ReadWords(year, Words(line))
  }

  function ReadWords(year: int, words: seq<string>): Option<Entry> {
    if |words| < 6 then None
    else
      var time, group := ReadFields(year, words[..5]), ReadCommand(words[6..]);
      if time.None? then None else EntryOf(group, time.value)
  }

  lemma ReadParts(year: int, fields: seq<string>, account: string, cmd: seq<string>, t: int)
    requires |fields| == 5 && ReadFields(year, fields) == Some(t)
    ensures ReadWords(year, fields + [account] + cmd) == EntryOf(ReadCommand(cmd), t)
  {
    var words := fields + [account] + cmd;
    assert words[..5] == fields && words[6..] == cmd;
  }

  function FieldWords(t: int): seq<string> {
    [Decimal(Minute(t)), Decimal(Hour(t)), Decimal(Day(t)), Decimal(Month(t)), Decimal(DayOfWeek(t))]
  }

  lemma WordsOfFields(t: int)
    ensures Words(TimeFields(t)) == FieldWords(t)
  {
    var m, h, d, mo, w := Decimal(Minute(t)), Decimal(Hour(t)), Decimal(Day(t)), Decimal(Month(t)), Decimal(DayOfWeek(t));
    DecimalRoundTrip(Minute(t));
    DecimalRoundTrip(Hour(t));
    DecimalRoundTrip(Day(t));
    DecimalRoundTrip(Month(t));
    DecimalRoundTrip(DayOfWeek(t));
    WordsOfPlain(m);
    WordsAdd(m, h);
    WordsAdd(m + " " + h, d);
    WordsAdd(m + " " + h + " " + d, mo);
    WordsAdd(m + " " + h + " " + d + " " + mo, w);
  }

  /** The fields are those of the whole minute that has begun. */
  lemma ReadFieldWords(t: int)
    ensures ReadFields(YearOf(t), FieldWords(t)) == Some(t - t % MINUTE)
  {
    DecimalRoundTrip(Minute(t));
    DecimalRoundTrip(Hour(t));
    DecimalRoundTrip(Day(t));
    DecimalRoundTrip(Month(t));
    DecimalRoundTrip(DayOfWeek(t));
    InstantAtFields(t);
  }

  lemma InstantAtFields(t: int)
    ensures InstantAt(YearOf(t), Minute(t), Hour(t), Day(t), Month(t), DayOfWeek(t)) == Some(t - t % MINUTE)
  {
    FieldsGiveInstantIff(t);
    SameMinute(t);
  }

  lemma WordsOfLine(e: Entry, path: string, account: string)
    requires IsPlain(account)
    ensures Words(Line(e, path, account)) == FieldWords(e.time) + [account] + Words(TerminateCommand(path, e.group))
    ensures Words(Line(e, path, account))
         == [Decimal(Minute(e.time)), Decimal(Hour(e.time)), Decimal(Day(e.time)), Decimal(Month(e.time)), Decimal(DayOfWeek(e.time)), account]
            + Words(TerminateCommand(path, e.group))
  {
    WordsOfFields(e.time);
    WordsAdd(TimeFields(e.time), account);
    var front, cmd := TimeFields(e.time) + " " + account, TerminateCommand(path, e.group);
    assert Line(e, path, account) == front + (" " + cmd);
    WordsConcat(front, " " + cmd);
    assert (" " + cmd)[1..] == cmd;
  }

  /** A line, read in the year of its entry, gives the entry back exactly when the entry is at a
      whole minute and its group is printable. */
  lemma LineRoundTripIff(e: Entry, path: string, account: string)
    requires IsPlain(path) && IsPlain(account)
    ensures ReadLine(YearOf(e.time), Line(e, path, account)) == Some(e) <==> e.time % MINUTE == 0 && IsPrintable(e.group)
  {
    WordsOfLine(e, path, account);
    CommandRoundTripIff(path, e.group);
    ReadsBackIff(e, Line(e, path, account), account, Words(TerminateCommand(path, e.group)));
  }

  lemma ReadsBackIff(e: Entry, line: string, account: string, cmd: seq<string>)
    requires Words(line) == FieldWords(e.time) + [account] + cmd
    ensures ReadLine(YearOf(e.time), line) == Some(e) <==> e.time % MINUTE == 0 && ReadCommand(cmd) == Some(e.group)
  {
    ReadFieldsAndCommand(e.time, account, cmd);
    EntryOfIff(ReadCommand(cmd), e.time - e.time % MINUTE, e);
  }

  /** The entry that a line makes of the group and the instant it was read as. */
  function EntryOf(group: Option<Group>, time: int): Option<Entry> {
    if group.None? then None else Some(Entry(group.value, time))
  }

  lemma EntryOfIff(group: Option<Group>, time: int, e: Entry)
    ensures EntryOf(group, time) == Some(e) <==> group == Some(e.group) && time == e.time
  {
  }

  lemma ReadFieldsAndCommand(t: int, account: string, cmd: seq<string>)
    ensures ReadWords(YearOf(t), FieldWords(t) + [account] + cmd) == EntryOf(ReadCommand(cmd), t - t % MINUTE)
  {
    ReadFieldWords(t);
    ReadParts(YearOf(t), FieldWords(t), account, cmd, t - t % MINUTE);
  }

  // ---------------------------------------------------------------- the table

  function Table(es: seq<Entry>, path: string, account: string): string {
    if es == [] then "" else Line(es[0], path, account) + "\n" + Table(es[1..], path, account)
  }

  /** The length of the line that the text begins with, without its newline. */
  function LineLength(text: string): (n: nat)
    ensures n <= |text| && (n < |text| ==> text[n] == '\n')
  {
    if text == "" || text[0] == '\n' then 0 else 1 + LineLength(text[1..])
  }

  /** The entries of the lines, if every line can be read and is ended by a newline. */
  function ReadTable(year: int, text: string): Option<seq<Entry>>
    decreases |text|
  {
    if text == "" then Some([])
    else
      var n := LineLength(text);
      if n == |text| then None
      else
        var first, rest := ReadLine(year, text[..n]), ReadTable(year, text[n + 1..]);
        if first.None? || rest.None? then None else Some([first.value] + rest.value)
  }

  predicate OneLine(s: string) {
    forall i :: 0 <= i < |s| ==> s[i] != '\n'
  }

  lemma {:induction false} LineLengthOf(line: string, rest: string)
    requires OneLine(line)
    ensures LineLength(line + "\n" + rest) == |line|
    decreases |line|
  {
    if line != "" {
      assert (line + "\n" + rest)[1..] == line[1..] + "\n" + rest;
      LineLengthOf(line[1..], rest);
    } else {
      assert (line + "\n" + rest)[0] == '\n';
    }
  }

  lemma CommandIsOneLine(path: string, g: Group)
    requires IsPlain(path) && IsPrintable(g)
    ensures OneLine(TerminateCommand(path, g))
  {
    var cmd := path + " " + g.app + " " + g.account;
    assert OneLine(cmd);
    assert OneLine(CLUSTER) && OneLine(STACK) && OneLine(REGION);
    assert OneLine(WithFlag(cmd, CLUSTER, g.Cluster()));
    assert OneLine(WithFlag(WithFlag(cmd, CLUSTER, g.Cluster()), STACK, g.Stack()));
  }

  lemma FieldsAreOneLine(t: int)
    ensures OneLine(TimeFields(t))
  {
    DecimalRoundTrip(Minute(t));
    DecimalRoundTrip(Hour(t));
    DecimalRoundTrip(Day(t));
    DecimalRoundTrip(Month(t));
    DecimalRoundTrip(DayOfWeek(t));
  }

  lemma LineIsOneLine(e: Entry, path: string, account: string)
    requires IsPlain(path) && IsPlain(account) && IsPrintable(e.group)
    ensures OneLine(Line(e, path, account))
  {
    CommandIsOneLine(path, e.group);
    FieldsAreOneLine(e.time);
  }

  ghost predicate AreReadable(year: int, es: seq<Entry>) {
    forall i :: 0 <= i < |es| ==> IsReadable(year, es[i])
  }

  ghost predicate IsReadable(year: int, e: Entry) {
    YearOf(e.time) == year && e.time % MINUTE == 0 && IsPrintable(e.group)
  }

  lemma Regroup(a: string, b: string, c: string, d: string)
    ensures a + (b + c + d) == a + b + c + d
  {
  }

  lemma ReadFirstLine(year: int, line: string, rest: string)
    requires OneLine(line)
    ensures var first, others := ReadLine(year, line), ReadTable(year, rest);
            ReadTable(year, line + "\n" + rest)
            == if first.None? || others.None? then None else Some([first.value] + others.value)
  {
    var text := line + "\n" + rest;
    LineLengthOf(line, rest);
    assert text[..|line|] == line && text[|line| + 1..] == rest;
  }

  lemma ReadFirstEntry(year: int, e: Entry, rest: string, path: string, account: string)
    requires IsPlain(path) && IsPlain(account) && IsReadable(year, e)
    ensures var others := ReadTable(year, rest);
            ReadTable(year, Line(e, path, account) + "\n" + rest) == if others.None? then None else Some([e] + others.value)
  {
    LineIsOneLine(e, path, account);
    LineRoundTripIff(e, path, account);
    ReadFirstLine(year, Line(e, path, account), rest);
  }

  /** Reading the table gives the entries back, one for each line and in the same order. */
  lemma {:induction false} TableRoundTrip(year: int, es: seq<Entry>, path: string, account: string)
    requires IsPlain(path) && IsPlain(account) && AreReadable(year, es)
    ensures ReadTable(year, Table(es, path, account)) == Some(es)
    decreases |es|
  {
    if es != [] {
      assert IsReadable(year, es[0]);
      TableRoundTrip(year, es[1..], path, account);
      ReadFirstEntry(year, es[0], Table(es[1..], path, account), path, account);
      assert es == [es[0]] + es[1..];
    }
  }

  /** The text of a line, with single blanks. */
  lemma LineText(e: Entry, path: string, account: string)
    ensures var t := e.time;
            Line(e, path, account)
            == Decimal(Minute(t)) + " " + Decimal(Hour(t)) + " " + Decimal(Day(t)) + " " + Decimal(Month(t)) + " " + Decimal(DayOfWeek(t))
               + " " + account + " " + TerminateCommand(path, e.group)
  {
  }

  /** The fields in full of 19:28 UTC on Wednesday, 16 December 2015. */
  lemma FieldsInFull(t: int)
    requires t == 1_450_294_080
    ensures TimeFields(t) == "28 19 16 12 3"
  {
    assert IsDate(2015, 12, 16) && InstantOf(2015, 12, 16, 19, 28) == t;
    InstantShowsFields(2015, 12, 16, 19, 28);
    assert t / 86_400 == 16_785;
    DaysOfWeek(t);
    TwoDigits(2, 8);
    TwoDigits(1, 9);
    TwoDigits(1, 6);
    TwoDigits(1, 2);
    DecimalDigits(0, 3);
  }

  lemma TwoDigits(tens: nat, ones: nat)
    requires 0 < tens < 10 && ones < 10
    ensures Decimal(10 * tens + ones) == ["0123456789"[tens], "0123456789"[ones]]
  {
    DecimalDigits(tens, ones);
    DecimalDigits(0, tens);
  }
}

/** The logging singleton of prac6shablon/src/Main.java: a severity
    threshold that decides which messages are written, and the configuration
    loader that folds `key=value` lines into the threshold and the log file
    name. Writing to the file and reading the configuration file are left to
    the caller: a write yields the line that would be appended, and the loader
    receives the file's lines. */
module LogSystem {
  import opened Wrappers
  import Strings

  datatype Severity = LOW | MEDIUM | HIGH

  /** `ordinal()`: declaration order. */
  function Ordinal(s: Severity): nat
  {
    match s
    case LOW => 0
    case MEDIUM => 1
    case HIGH => 2
  }

  /** The enum constant's `name()`. */
  function SeverityName(s: Severity): string
  {
    match s
    case LOW => "LOW"
    case MEDIUM => "MEDIUM"
    case HIGH => "HIGH"
  }

  /** `LogSeverity.valueOf`: the constant whose name is exactly `name`. */
  function SeverityValueOf(name: string): (r: Option<Severity>)
    ensures r.Some? <==> name in {"LOW", "MEDIUM", "HIGH"}
    ensures r.Some? ==> SeverityName(r.value) == name
  {
    if name == "LOW" then Some(LOW)
    else if name == "MEDIUM" then Some(MEDIUM)
    else if name == "HIGH" then Some(HIGH)
    else None
  }

  lemma ValueOfName(s: Severity)
    ensures SeverityValueOf(SeverityName(s)) == Some(s)
  {
  }

  /** The singleton's state: threshold and log file name. */
  datatype Config = Config(severity: Severity, file: string)

  /** What the private constructor sets up. */
  const DefaultConfig := Config(LOW, "log_output.txt")

  /** `getInstance`: creates the instance on first use and hands back the same
      one afterwards (the locking is not modelled). */
  function GetInstance(slot: Option<Config>): (r: (Config, Option<Config>))
    ensures r.1 == Some(r.0)
    ensures slot.Some? ==> r.0 == slot.value
    ensures slot.None? ==> r.0 == DefaultConfig
  {
    match slot
    case Some(c) => (c, slot)
    case None => (DefaultConfig, Some(DefaultConfig))
  }

  lemma GetInstanceIdempotent(slot: Option<Config>)
    ensures GetInstance(GetInstance(slot).1) == GetInstance(slot)
  {
  }

  /** The severity test of `writeLog`. */
  predicate Passes(threshold: Severity, s: Severity)
  {
    Ordinal(s) >= Ordinal(threshold)
  }

  /** Under the default threshold every message passes, a HIGH message
      passes any threshold, a LOW one only the LOW threshold, and a message
      that passes still passes when its severity is raised. */
  lemma PassesOrder(threshold: Severity, s: Severity, s': Severity)
    ensures Passes(LOW, s) && Passes(threshold, HIGH)
    ensures Passes(threshold, LOW) <==> threshold == LOW
    ensures Passes(threshold, s) && Ordinal(s) <= Ordinal(s') ==> Passes(threshold, s')
  {
  }

  /** `writeLog`: the line appended to the log file, if any. The timestamp
      `new Date()` is passed in. */
  function WriteLog(cfg: Config, timestamp: string, message: string, s: Severity): (r: seq<string>)
    ensures |r| <= 1
    ensures |r| == 1 <==> Ordinal(s) >= Ordinal(cfg.severity)
    ensures |r| == 1 ==> r[0] == timestamp + " [" + SeverityName(s) + "] " + message
  {
    if Passes(cfg.severity, s) then [timestamp + " [" + SeverityName(s) + "] " + message] else []
  }

  // ---------------------------------------------------------------------
  // loadConfig

  /** The exceptions a configuration line can raise: a missing `parts[i]`
      and an unknown severity name. */
  datatype ConfigError = IndexOutOfBounds(index: nat) | NoSuchSeverity(name: string)

  /** One iteration of the `loadConfig` loop: split on "=" with Java's rules,
      then act on the key. */
  function ApplyLine(cfg: Config, line: string): (r: Result<Config, ConfigError>)
    ensures var parts := Strings.JavaSplit(line, '=');
            && (|parts| == 0 ==> r == Failure(IndexOutOfBounds(0)))
            && (|parts| > 0 && parts[0] != "LogSeverity" && parts[0] != "LogFile" ==> r == Success(cfg))
            && (|parts| == 1 && (parts[0] == "LogSeverity" || parts[0] == "LogFile") ==> r == Failure(IndexOutOfBounds(1)))
            && (|parts| >= 2 && parts[0] == "LogFile" ==> r == Success(cfg.(file := parts[1])))
            && (|parts| >= 2 && parts[0] == "LogSeverity" ==>
                  r == match SeverityValueOf(parts[1])
                       case Some(s) => Success(cfg.(severity := s))
                       case None => Failure(NoSuchSeverity(parts[1])))
    ensures r.Success? ==> r.value.severity == cfg.severity || r.value.file == cfg.file
  {
    var parts := Strings.JavaSplit(line, '=');
    if |parts| == 0 then Failure(IndexOutOfBounds(0))
    else if parts[0] == "LogSeverity" then
      if |parts| < 2 then Failure(IndexOutOfBounds(1))
      else
        match SeverityValueOf(parts[1])
        case None => Failure(NoSuchSeverity(parts[1]))
        case Some(s) => Success(cfg.(severity := s))
    else if parts[0] == "LogFile" then
      if |parts| < 2 then Failure(IndexOutOfBounds(1)) else Success(cfg.(file := parts[1]))
    else Success(cfg)
  }

  /** A well-formed `key=value` line: `LogSeverity` sets the threshold when
      the value names a severity and throws otherwise, `LogFile` sets the
      file, and any other key is ignored. */
  lemma ApplyKeyValue(cfg: Config, key: string, value: string)
    requires '=' !in key && '=' !in value && value != ""
    ensures ApplyLine(cfg, key + "=" + value) ==
              if key == "LogSeverity" then
                (match SeverityValueOf(value)
                 case Some(s) => Success(cfg.(severity := s))
                 case None => Failure(NoSuchSeverity(value)))
              else if key == "LogFile" then Success(cfg.(file := value))
              else Success(cfg)
  {
    Strings.SplitKeyValue(key, value, '=');
  }

  /** An empty line splits into one empty key and is ignored. */
  lemma EmptyLineIgnored(cfg: Config)
    ensures ApplyLine(cfg, "") == Success(cfg)
  {
    assert Strings.JavaSplit("", '=') == [""];
  }

  /** Java's split drops trailing empty strings, so a recognised key with no
      "=" or with nothing after it throws for the missing `parts[1]`. */
  lemma KeyWithoutValueFails(cfg: Config, key: string)
    requires key == "LogSeverity" || key == "LogFile"
    ensures ApplyLine(cfg, key) == Failure(IndexOutOfBounds(1))
    ensures ApplyLine(cfg, key + "=") == Failure(IndexOutOfBounds(1))
  {
    assert '=' !in key;
    KeyWithEmptyValue(key);
  }

  /** A line made of "=" alone splits into nothing and throws for the
      missing `parts[0]`. */
  lemma SeparatorAloneFails(cfg: Config)
    ensures ApplyLine(cfg, "=") == Failure(IndexOutOfBounds(0))
  {
    SeparatorAlone();
  }

  lemma KeyWithEmptyValue(key: string)
    requires '=' !in key && key != ""
    ensures Strings.JavaSplit(key + "=", '=') == [key]
  {
    var s := key + "=";
    assert s[|key|] == '=';
    assert s == key + ['='] + "";
    Strings.PiecesKeyValue(key, "", '=');
    assert [key, ""][..1] == [key];
    assert Strings.StripTrailingEmpty([key, ""]) == Strings.StripTrailingEmpty([key]) == [key];
  }

  lemma SeparatorAlone()
    ensures Strings.JavaSplit("=", '=') == []
  {
    var eq := "=";
    assert eq[0] == '=' && eq[1..] == "";
    assert Strings.Pieces(eq, '=') == ["", ""];
    assert ["", ""][..1] == [""] && [""][..0] == [];
    assert Strings.StripTrailingEmpty(["", ""]) == Strings.StripTrailingEmpty([""]) == [];
  }

  /** Outcome of `loadConfig`: the state it leaves behind and the exception
      it threw, if any. Lines before a failing line have already taken
      effect, since the singleton is updated in place. */
  datatype LoadOutcome = LoadOutcome(config: Config, error: Option<ConfigError>)

  /** `loadConfig` over the file's lines, first to last, stopping at the
      first line that throws. */
  function LoadConfig(cfg: Config, lines: seq<string>): (r: LoadOutcome)
    ensures lines == [] ==> r == LoadOutcome(cfg, None)
    decreases |lines|
  {
    if |lines| == 0 then LoadOutcome(cfg, None)
    else
      match ApplyLine(cfg, lines[0])
      case Failure(e) => LoadOutcome(cfg, Some(e))
      case Success(c) => LoadConfig(c, lines[1..])
  }

  /** Loading two blocks of lines is loading the first, then the second from
      where the first left off, unless the first threw. */
  lemma {:induction false} LoadConfigAppend(cfg: Config, a: seq<string>, b: seq<string>)
    ensures LoadConfig(cfg, a + b) ==
              if LoadConfig(cfg, a).error.Some? then LoadConfig(cfg, a)
              else LoadConfig(LoadConfig(cfg, a).config, b)
    decreases |a|
  {
    if |a| > 0 {
      assert (a + b)[0] == a[0] && (a + b)[1..] == a[1..] + b;
      match ApplyLine(cfg, a[0])
      case Failure(_) =>
      case Success(c) => LoadConfigAppend(c, a[1..], b);
    } else {
      assert a + b == b;
    }
  }

  /** Later lines override earlier ones: a final valid severity line decides
      the threshold, whatever came before it, and keeps the file name. */
  lemma LaterLineOverrides(cfg: Config, lines: seq<string>, s: Severity)
    requires LoadConfig(cfg, lines).error.None?
    ensures LoadConfig(cfg, lines + ["LogSeverity=" + SeverityName(s)])
            == LoadOutcome(LoadConfig(cfg, lines).config.(severity := s), None)
  {
    var mid := LoadConfig(cfg, lines).config;
    var line := "LogSeverity=" + SeverityName(s);
    LoadConfigAppend(cfg, lines, [line]);
    SeverityLine(mid, s);
    assert [line][1..] == [];
  }

  /** A "LogSeverity" line naming a constant sets the threshold to it. */
  lemma SeverityLine(cfg: Config, s: Severity)
    ensures ApplyLine(cfg, "LogSeverity=" + SeverityName(s)) == Success(cfg.(severity := s))
  {
    assert '=' !in "LogSeverity";
    assert '=' !in SeverityName(s);
    assert "LogSeverity=" + SeverityName(s) == "LogSeverity" + "=" + SeverityName(s);
    ApplyKeyValue(cfg, "LogSeverity", SeverityName(s));
    ValueOfName(s);
  }
}

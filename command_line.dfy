/**
 * Mode and option selection of the concurrency runner: parse_command_line,
 * which folds the options getopt delivers into the globals ProblemType,
 * ProducerCount and ConsumerCount, and the exit status main derives from the
 * resulting mode.
 *
 * getopt and atoi are library calls and are not modelled: their output is
 * the input here, as a sequence of already decoded options.
 */
module CommandLine {

  /** enum Model: the problem the runner tackles. */
  datatype Model = ProdCon | Diners | Brewers | None

  /** One result of getopt with option string "dbpn:c:", with the value of
      optarg passed through atoi where the option takes one. */
  datatype Opt =
    | DinersFlag                 // -d
    | BrewersFlag                // -b
    | ProdConFlag                // -p
    | ProducerCount(count: int)  // -n <value>
    | ConsumerCount(count: int)  // -c <value>
    | Rejected(optopt: char)     // getopt returned '?': unknown option, or -n / -c without a value
    | Unexpected(option: char)   // any other result of getopt (the switch's default branch)

  /** The three globals parse_command_line writes. */
  datatype Settings = Settings(mode: Model, producers: int, consumers: int)

  /** The globals as main hands them to parse_command_line: ProblemType set to
      None, the counts as the C runtime initialises them. */
  const Initial := Settings(None, 0, 0)

  /** A rejected option other than -n / -c ends the loop. */
  predicate Stops(o: Opt) {
    o.Rejected? && o.optopt != 'n' && o.optopt != 'c'
  }

  /** The options that write ProblemType, and the mode they write. */
  predicate SetsMode(o: Opt) {
    o.DinersFlag? || o.BrewersFlag? || o.ProdConFlag? || o.Unexpected?
  }

  function ModeOf(o: Opt): (m: Model)
    requires SetsMode(o)
  {
    match o
    case DinersFlag => Diners
    case BrewersFlag => Brewers
    case ProdConFlag => ProdCon
    case Unexpected(_) => None
  }

  /** One pass of the loop body for an option that does not end the loop. */
  function Step(s: Settings, o: Opt): (r: Settings)
    requires !Stops(o)
  {
    match o
    case DinersFlag => s.(mode := Diners)
    case BrewersFlag => s.(mode := Brewers)
    case ProdConFlag => s.(mode := ProdCon)
    case ProducerCount(n) => s.(producers := n)
    case ConsumerCount(n) => s.(consumers := n)
    case Rejected(_) => s
    case Unexpected(_) => s.(mode := None)
  }

  /** The globals when the option loop ends, either because the options ran
      out or because an unknown option stopped it. */
  function ParseLoop(s: Settings, opts: seq<Opt>): (r: Settings)
    decreases |opts|
  {
    if |opts| == 0 then s
    else if Stops(opts[0]) then s.(mode := None)
    else ParseLoop(Step(s, opts[0]), opts[1..])
  }

  /** The check after the loop: Producer/Consumer without both counts is
      rejected, every other mode is left alone. */
  function CountCheck(s: Settings): (r: Settings)
    ensures r.producers == s.producers && r.consumers == s.consumers
    ensures s.mode != ProdCon ==> r == s
    ensures s.mode == ProdCon ==> (r.mode == ProdCon <==> s.producers != 0 && s.consumers != 0)
    ensures r.mode == ProdCon ==> r.producers != 0 && r.consumers != 0
    ensures r.mode == s.mode || r.mode == None
  {
    if s.mode == ProdCon && (s.producers == 0 || s.consumers == 0) then s.(mode := None) else s
  }

  /** The globals after parse_command_line. */
  function Parse(s: Settings, opts: seq<Opt>): (r: Settings) {
    CountCheck(ParseLoop(s, opts))
  }

  /** parse_command_line, updating the globals option by option. */
  method ParseCommandLine(start: Settings, opts: seq<Opt>) returns (s: Settings)
    ensures s == Parse(start, opts)
  {
    s := start;
    var i := 0;
    while i < |opts|
      invariant 0 <= i <= |opts|
      invariant ParseLoop(s, opts[i..]) == ParseLoop(start, opts)
    {
      assert opts[i..][1..] == opts[i + 1..];
      match opts[i] {
        case DinersFlag =>
          s := s.(mode := Diners);
        case BrewersFlag =>
          s := s.(mode := Brewers);
        case ProdConFlag =>
          s := s.(mode := ProdCon);
        case ProducerCount(n) =>
          s := s.(producers := n);
        case ConsumerCount(n) =>
          s := s.(consumers := n);
        case Rejected(c) =>
          if c != 'n' && c != 'c' {
            // unknown option: give up on the whole command line
            s := s.(mode := None);
            return;
          }
          // -n or -c without a value: only a message
        case Unexpected(_) =>
          s := s.(mode := None);
      }
      i := i + 1;
    }
    if s.mode == ProdCon && (s.producers == 0 || s.consumers == 0) {
      s := s.(mode := None);
    }
  }

  /** The exit status main computes: -1 when there are no arguments at all,
      or when no valid mode came out of parsing; 0 otherwise, once the run of
      the selected problem has returned. */
  method ExitCode(argc: int, opts: seq<Opt>) returns (code: int)
    ensures code == 0 || code == -1
    ensures code == 0 <==> argc > 1 && Parse(Initial, opts).mode != None
  {
    if argc <= 1 {
      return -1;
    }
    var s := ParseCommandLine(Initial, opts);
    code := if s.mode == None then -1 else 0;
  }

  /** The mode after the loop is the one written by the last option that
      writes it, when no unknown option stops the loop. */
  lemma {:induction false} LastModeFlagWins(s: Settings, opts: seq<Opt>, k: int)
    requires forall j | 0 <= j < |opts| :: !Stops(opts[j])
    requires 0 <= k < |opts| && SetsMode(opts[k])
    requires forall j | k < j < |opts| :: !SetsMode(opts[j])
    ensures ParseLoop(s, opts).mode == ModeOf(opts[k])
    decreases |opts|
  {
    if k == 0 {
      ModeKeptWithoutFlags(Step(s, opts[0]), opts[1..]);
    } else {
      LastModeFlagWins(Step(s, opts[0]), opts[1..], k - 1);
    }
  }

  /** Without options that write it, the mode survives the loop unless an
      unknown option stops it. */
  lemma {:induction false} ModeKeptWithoutFlags(s: Settings, opts: seq<Opt>)
    requires forall j | 0 <= j < |opts| :: !Stops(opts[j]) && !SetsMode(opts[j])
    ensures ParseLoop(s, opts).mode == s.mode
    decreases |opts|
  {
    if |opts| > 0 {
      ModeKeptWithoutFlags(Step(s, opts[0]), opts[1..]);
    }
  }

  /** The producer count after the loop is the value of the last -n, provided
      no unknown option stopped the loop before it. */
  lemma {:induction false} LastProducerCountWins(s: Settings, opts: seq<Opt>, k: int)
    requires 0 <= k < |opts| && opts[k].ProducerCount?
    requires forall j | 0 <= j < k :: !Stops(opts[j])
    requires forall j | k < j < |opts| :: !opts[j].ProducerCount?
    ensures ParseLoop(s, opts).producers == opts[k].count
    decreases |opts|
  {
    if k == 0 {
      ProducersKeptWithoutValues(Step(s, opts[0]), opts[1..]);
    } else {
      LastProducerCountWins(Step(s, opts[0]), opts[1..], k - 1);
    }
  }

  /** Without -n values, the producer count survives the loop. */
  lemma {:induction false} ProducersKeptWithoutValues(s: Settings, opts: seq<Opt>)
    requires forall j | 0 <= j < |opts| :: !opts[j].ProducerCount?
    ensures ParseLoop(s, opts).producers == s.producers
    decreases |opts|
  {
    if |opts| > 0 && !Stops(opts[0]) {
      ProducersKeptWithoutValues(Step(s, opts[0]), opts[1..]);
    }
  }

  /** The consumer count after the loop is the value of the last -c, provided
      no unknown option stopped the loop before it. */
  lemma {:induction false} LastConsumerCountWins(s: Settings, opts: seq<Opt>, k: int)
    requires 0 <= k < |opts| && opts[k].ConsumerCount?
    requires forall j | 0 <= j < k :: !Stops(opts[j])
    requires forall j | k < j < |opts| :: !opts[j].ConsumerCount?
    ensures ParseLoop(s, opts).consumers == opts[k].count
    decreases |opts|
  {
    if k == 0 {
      ConsumersKeptWithoutValues(Step(s, opts[0]), opts[1..]);
    } else {
      LastConsumerCountWins(Step(s, opts[0]), opts[1..], k - 1);
    }
  }

  /** Without -c values, the consumer count survives the loop. */
  lemma {:induction false} ConsumersKeptWithoutValues(s: Settings, opts: seq<Opt>)
    requires forall j | 0 <= j < |opts| :: !opts[j].ConsumerCount?
    ensures ParseLoop(s, opts).consumers == s.consumers
    decreases |opts|
  {
    if |opts| > 0 && !Stops(opts[0]) {
      ConsumersKeptWithoutValues(Step(s, opts[0]), opts[1..]);
    }
  }

  /** An unknown option sets the mode to None and nothing after it is read. */
  lemma {:induction false} UnknownOptionStops(s: Settings, before: seq<Opt>, c: char, after: seq<Opt>)
    requires forall j | 0 <= j < |before| :: !Stops(before[j])
    requires c != 'n' && c != 'c'
    ensures ParseLoop(s, before + [Rejected(c)] + after) == ParseLoop(s, before).(mode := None)
    decreases |before|
  {
    var opts := before + [Rejected(c)] + after;
    if |before| > 0 {
      assert opts[0] == before[0];
      assert opts[1..] == before[1..] + [Rejected(c)] + after;
      UnknownOptionStops(Step(s, before[0]), before[1..], c, after);
    } else {
      assert opts[0] == Rejected(c);
    }
  }

  /** -n or -c without a value changes nothing and the loop goes on. */
  lemma {:induction false} MissingValueSkipped(s: Settings, before: seq<Opt>, c: char, after: seq<Opt>)
    requires c == 'n' || c == 'c'
    ensures ParseLoop(s, before + [Rejected(c)] + after) == ParseLoop(s, before + after)
    decreases |before|
  {
    var opts := before + [Rejected(c)] + after;
    if |before| > 0 {
      assert opts[0] == (before + after)[0] == before[0];
      assert opts[1..] == before[1..] + [Rejected(c)] + after;
      assert (before + after)[1..] == before[1..] + after;
      if !Stops(before[0]) {
        MissingValueSkipped(Step(s, before[0]), before[1..], c, after);
      }
    } else {
      assert opts[0] == Rejected(c);
      assert opts[1..] == after == before + after;
    }
  }

  /** From main's starting globals, Producer/Consumer survives parsing only
      if both an -n and a -c option were read. */
  lemma ProdConNeedsBothCounts(opts: seq<Opt>)
    ensures Parse(Initial, opts).mode == ProdCon ==>
              (exists j | 0 <= j < |opts| :: opts[j].ProducerCount?) &&
              (exists j | 0 <= j < |opts| :: opts[j].ConsumerCount?)
  {
    if forall j | 0 <= j < |opts| :: !opts[j].ProducerCount? {
      ProducersKeptWithoutValues(Initial, opts);
    }
    if forall j | 0 <= j < |opts| :: !opts[j].ConsumerCount? {
      ConsumersKeptWithoutValues(Initial, opts);
    }
  }

  /** The check after the loop rejects only a zero count, although its
      message asks for counts greater than zero: any negative -n value passes
      it, together with any non-zero -c value. */
  lemma NegativeCountAccepted(n: int, c: int)
    requires n < 0 && c != 0
    ensures Parse(Initial, [ProdConFlag, ProducerCount(n), ConsumerCount(c)]) == Settings(ProdCon, n, c)
  {
    var opts := [ProdConFlag, ProducerCount(n), ConsumerCount(c)];
    assert opts[1..] == [ProducerCount(n), ConsumerCount(c)];
    assert opts[1..][1..] == [ConsumerCount(c)];
    assert [ConsumerCount(c)][1..] == [];
    assert ParseLoop(Settings(ProdCon, n, 0), [ConsumerCount(c)]) == Settings(ProdCon, n, c);
    assert ParseLoop(Settings(ProdCon, 0, 0), opts[1..]) == Settings(ProdCon, n, c);
  }
}

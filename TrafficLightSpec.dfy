/** Pure definitions of what the `st::PS_TrafficLight` polling sensor does:
    how it reads the settings the hub sends, how it picks a zone and a light
    colour for a distance, when it reports, and how it sorts hub messages.
    The class in module `TrafficLight` is specified by these definitions. */
module TrafficLightSpec {
  import opened ArduinoString

  // ---------------------------------------------------------------- settings

  /** The settings an `inputs` message can change. */
  datatype Key = LocalPoll | ProceedDistance | WarningDistance | StopDistance | TooFarDistance

  /** The name under which the hub sends each setting. */
  function KeyName(k: Key): string {
    match k
    case LocalPoll => "local_poll"
    case ProceedDistance => "proceed_distance"
    case WarningDistance => "warning_distance"
    case StopDistance => "stop_distance"
    case TooFarDistance => "too_far_distance"
  }

  /** A setting name holds neither a space nor a colon. */
  lemma KeyNameShape(k: Key, i: nat)
    requires i < |KeyName(k)|
    ensures KeyName(k)[i] != ' ' && KeyName(k)[i] != ':'
  {
    match k
    case LocalPoll =>
    case ProceedDistance =>
    case WarningDistance =>
    case StopDistance =>
    case TooFarDistance =>
  }

  /** The five settings, kept as the text the hub sent. */
  datatype Settings = Settings(
    localPoll: string,
    proceedDistance: string,
    warningDistance: string,
    stopDistance: string,
    tooFarDistance: string)

  /** The values the class declares its settings with. */
  const DefaultSettings := Settings("1000", "20", "15", "10", "5")

  function Get(cfg: Settings, k: Key): string {
    match k
    case LocalPoll => cfg.localPoll
    case ProceedDistance => cfg.proceedDistance
    case WarningDistance => cfg.warningDistance
    case StopDistance => cfg.stopDistance
    case TooFarDistance => cfg.tooFarDistance
  }

  function Set(cfg: Settings, k: Key, v: string): (r: Settings)
    ensures Get(r, k) == v
    ensures forall j :: j != k ==> Get(r, j) == Get(cfg, j)
  {
    match k
    case LocalPoll => cfg.(localPoll := v)
    case ProceedDistance => cfg.(proceedDistance := v)
    case WarningDistance => cfg.(warningDistance := v)
    case StopDistance => cfg.(stopDistance := v)
    case TooFarDistance => cfg.(tooFarDistance := v)
  }

  /** The five `if (myKey == ...)` tests of one pass of `parseSettings`: each
      setting takes `value` exactly when `key` is its name. */
  function ApplyPair(cfg: Settings, key: string, value: string): Settings {
    Settings(
      if key == "local_poll" then value else cfg.localPoll,
      if key == "proceed_distance" then value else cfg.proceedDistance,
      if key == "warning_distance" then value else cfg.warningDistance,
      if key == "stop_distance" then value else cfg.stopDistance,
      if key == "too_far_distance" then value else cfg.tooFarDistance)
  }

  /** A key that is no setting name changes nothing. */
  lemma UnknownKey(cfg: Settings, key: string, value: string)
    requires forall k :: KeyName(k) != key
    ensures ApplyPair(cfg, key, value) == cfg
  {
    assert KeyName(LocalPoll) != key && KeyName(ProceedDistance) != key && KeyName(WarningDistance) != key;
    assert KeyName(StopDistance) != key && KeyName(TooFarDistance) != key;
  }

  /** Where the word at the start of `s` ends: at its first space, or at its end. */
  function WordEnd(s: string): (n: nat)
    ensures n <= |s|
    ensures forall i :: 0 <= i < n ==> s[i] != ' '
    ensures n < |s| ==> s[n] == ' '
  {
    var i := IndexOf(s, ' ');
    if i < 0 then |s| else i
  }

  /** The words `parseSettings` visits: the space-separated words of `s` from
      its start up to its end or up to the first empty word, which a leading
      or a doubled space makes. */
  function Words(s: string): (ws: seq<string>)
    ensures forall i :: 0 <= i < |ws| ==> |ws[i]| > 0 && ' ' !in ws[i]
    decreases |s|
  {
    if |s| == 0 || s[0] == ' ' then []
    else
      var e := WordEnd(s);
      assert forall i :: 0 <= i < e ==> s[..e][i] != ' ';
      [s[..e]] + (if e < |s| then Words(s[e + 1..]) else [])
  }

  /** What one word `key:value` does: the text before its first ':' names
      the setting, which takes the text after that ':'. A word without ':',
      or whose name is no setting, does nothing. */
  function ApplyWord(cfg: Settings, w: string): Settings {
    var c := IndexOf(w, ':');
    if c < 0 then cfg else ApplyPair(cfg, w[..c], w[c + 1..])
  }

  function ApplyWords(cfg: Settings, ws: seq<string>): Settings
    decreases |ws|
  {
    if ws == [] then cfg else ApplyWords(ApplyWord(cfg, ws[0]), ws[1..])
  }

  /** The settings after `parseSettings(text)` starting from `cfg`: the words
      of `text` applied from left to right. */
  function ParsedSettings(cfg: Settings, text: string): Settings {
    ApplyWords(cfg, Words(text))
  }

  /** Applying words one after another is applying their concatenation. */
  lemma {:induction false} ApplyWordsAppend(cfg: Settings, ws: seq<string>, w: string)
    ensures ApplyWords(cfg, ws + [w]) == ApplyWord(ApplyWords(cfg, ws), w)
    decreases |ws|
  {
    if ws != [] {
      assert (ws + [w])[1..] == ws[1..] + [w];
      ApplyWordsAppend(ApplyWord(cfg, ws[0]), ws[1..], w);
    }
  }

  /** A trailing space changes no word: the leftover string of `parseSettings`
      gains one at every pass. */
  lemma {:induction false} WordsTrailingSpace(x: string)
    ensures Words(x + " ") == Words(x)
    decreases |x|
  {
    var y := x + " ";
    if |x| > 0 && x[0] != ' ' {
      var e := WordEnd(x);
      assert y[..e] == x[..e];
      if e < |x| {
        IndexOfIs(y, ' ', e);
        assert y[e + 1..] == x[e + 1..] + " ";
        WordsTrailingSpace(x[e + 1..]);
      } else {
        IndexOfIs(y, ' ', |x|);
        assert y[|x| + 1..] == "";
      }
    }
  }

  /** A name with a space in it is no setting. */
  lemma NoKeyWithSpace(name: string, i: nat)
    requires i < |name| && name[i] == ' '
    ensures forall k :: KeyName(k) != name
  {
    forall k ensures KeyName(k) != name {
      if i < |KeyName(k)| {
        KeyNameShape(k, i);
      }
    }
  }

  /** What one pass of the `parseSettings` loop cuts out of `s = rest + ' '`:
      the text up to the first space is the word at the start of `rest`, and
      the leftover is what follows that word's space, plus a space. */
  lemma ParseStepCut(rest: string)
    requires |rest| < UINT_MAX
    ensures var s := rest + " ";
      var e := WordEnd(rest);
      UpTo(s, ' ') == rest[..e] &&
      After(s, ' ') == if e < |rest| then rest[e + 1..] + " " else ""
  {
    var s := rest + " ";
    var e := WordEnd(rest);
    if e < |rest| {
      IndexOfIs(s, ' ', e);
      assert s[e + 1..] == rest[e + 1..] + " ";
    } else {
      IndexOfIs(s, ' ', |rest|);
    }
    assert s[..e] == rest[..e];
  }

  /** The word and the leftover string of one pass of the `parseSettings`
      loop: the text of `s = rest + ' '` up to its first space is the first
      word of `rest`, and what follows that space (the new `settingsString`)
      is strictly shorter and holds the remaining words. */
  lemma ParseStepWords(rest: string)
    requires |rest| >= 1 && rest[0] != ' '
    requires |rest| < UINT_MAX
    ensures var s := rest + " ";
      |After(s, ' ')| < |rest| && Words(rest) == [UpTo(s, ' ')] + Words(After(s, ' '))
  {
    ParseStepCut(rest);
    var e := WordEnd(rest);
    if e < |rest| {
      WordsTrailingSpace(rest[e + 1..]);
    }
  }

  /** The key and the value one pass of the `parseSettings` loop cuts out of
      `s = rest + ' '` act as the first word of `rest`: when that word holds
      no ':', the key runs past the space and names no setting. */
  lemma ParseStepPair(cfg: Settings, rest: string)
    requires |rest| >= 1 && rest[0] != ' '
    requires |rest| < UINT_MAX
    ensures var s := rest + " ";
      ApplyPair(cfg, UpTo(s, ':'), Between(s, ':', ' ')) == ApplyWord(cfg, UpTo(s, ' '))
  {
    var s := rest + " ";
    assert s[|rest|] == ' ';
    if 0 <= IndexOf(s, ':') < IndexOf(s, ' ') {
      ColonInWord(s);
      var w := UpTo(s, ' ');
      var c := IndexOf(s, ':');
      assert ApplyWord(cfg, w) == ApplyPair(cfg, w[..c], w[c + 1..]);
    } else {
      ColonPastWord(cfg, s);
    }
  }

  /** A ':' in the first word splits it into the key and the value. */
  lemma ColonInWord(s: string)
    requires |s| <= UINT_MAX
    requires 0 <= IndexOf(s, ':') < IndexOf(s, ' ')
    ensures IndexOf(UpTo(s, ' '), ':') == IndexOf(s, ':')
    ensures UpTo(s, ':') == UpTo(s, ' ')[..IndexOf(s, ':')]
    ensures Between(s, ':', ' ') == UpTo(s, ' ')[IndexOf(s, ':') + 1..]
  {
    var sp := IndexOf(s, ' ');
    var colon := IndexOf(s, ':');
    IndexOfPrefix(s, ':', sp);
    SlicesOfPrefix(s, sp, colon);
  }

  /** Cutting a prefix again is cutting the whole at once. */
  lemma SlicesOfPrefix(s: string, n: nat, m: nat)
    requires m < n <= |s|
    ensures s[..n][..m] == s[..m]
    ensures s[..n][m + 1..] == s[m + 1..n]
  {
  }

  /** Without a ':' in the first word, the key reaches past the first space:
      it names no setting, and the word does nothing either. */
  lemma ColonPastWord(cfg: Settings, s: string)
    requires |s| <= UINT_MAX && ' ' in s
    requires !(0 <= IndexOf(s, ':') < IndexOf(s, ' '))
    ensures ApplyPair(cfg, UpTo(s, ':'), Between(s, ':', ' ')) == cfg
    ensures ApplyWord(cfg, UpTo(s, ' ')) == cfg
  {
    var sp := IndexOf(s, ' ');
    IndexOfPrefixAbsent(s, ':', sp);
    KeyPastSpace(s);
    NoKeyWithSpace(UpTo(s, ':'), sp);
    UnknownKey(cfg, UpTo(s, ':'), Between(s, ':', ' '));
  }

  /** When no ':' comes before the first space, the text up to the first ':'
      holds that space. */
  lemma KeyPastSpace(s: string)
    requires |s| <= UINT_MAX && ' ' in s
    requires !(0 <= IndexOf(s, ':') < IndexOf(s, ' '))
    ensures IndexOf(s, ' ') < |UpTo(s, ':')| && UpTo(s, ':')[IndexOf(s, ' ')] == ' '
  {
  }

  /** One pass of the `parseSettings` loop, with the Arduino `String` calls
      spelled out, applies the first word of `rest` and leaves a strictly
      shorter string whose words are the remaining ones. */
  lemma ParseStep(cfg: Settings, rest: string)
    requires |rest| >= 1 && rest[0] != ' '
    requires |rest| < UINT_MAX
    ensures var s := rest + " ";
      var next := After(s, ' ');
      |next| < |rest| &&
      ApplyWords(ApplyPair(cfg, UpTo(s, ':'), Between(s, ':', ' ')), Words(next)) == ApplyWords(cfg, Words(rest))
  {
    ParseStepWords(rest);
    ParseStepPair(cfg, rest);
    var s := rest + " ";
    assert ([UpTo(s, ' ')] + Words(After(s, ' ')))[1..] == Words(After(s, ' '));
  }

  /** A `key:value` pair as the hub writes it. */
  datatype Pair = Pair(key: string, value: string)

  /** A pair the hub can send: a non-empty name without space or colon, and a
      value without space. */
  predicate WellFormed(p: Pair) {
    |p.key| > 0 && ' ' !in p.key && ':' !in p.key && ' ' !in p.value
  }

  function PairText(p: Pair): string {
    p.key + ":" + p.value
  }

  function PairTexts(ps: seq<Pair>): seq<string> {
    if ps == [] then [] else [PairText(ps[0])] + PairTexts(ps[1..])
  }

  /** The settings text of an `inputs` message: the pairs, separated by single spaces. */
  function Join(ps: seq<Pair>): string {
    if ps == [] then ""
    else if |ps| == 1 then PairText(ps[0])
    else PairText(ps[0]) + " " + Join(ps[1..])
  }

  /** The value the last pair naming setting `k` holds, or `dflt` when none names it. */
  function LastValue(ps: seq<Pair>, k: Key, dflt: string): string
    decreases |ps|
  {
    if ps == [] then dflt
    else if ps[|ps| - 1].key == KeyName(k) then ps[|ps| - 1].value
    else LastValue(ps[..|ps| - 1], k, dflt)
  }

  /** The words `parseSettings` visits in a joined settings text are the pairs, in order. */
  lemma {:induction false} WordsOfJoin(ps: seq<Pair>)
    requires forall i :: 0 <= i < |ps| ==> WellFormed(ps[i])
    ensures Words(Join(ps)) == PairTexts(ps)
    decreases |ps|
  {
    if ps != [] {
      var t := PairText(ps[0]);
      assert t[0] == ps[0].key[0];
      assert ' ' !in t;
      if |ps| == 1 {
        assert WordEnd(t) == |t|;
        assert t[..|t|] == t;
        assert ps[1..] == [];
      } else {
        var j := t + " " + Join(ps[1..]);
        IndexOfIs(j, ' ', |t|);
        assert j[..|t|] == t;
        assert j[|t| + 1..] == Join(ps[1..]);
        WordsOfJoin(ps[1..]);
      }
    }
  }

  lemma {:induction false} PairTextsAppend(ps: seq<Pair>)
    requires ps != []
    ensures PairTexts(ps) == PairTexts(ps[..|ps| - 1]) + [PairText(ps[|ps| - 1])]
    decreases |ps|
  {
    if |ps| > 1 {
      assert ps[1..][..|ps| - 2] == ps[..|ps| - 1][1..];
      PairTextsAppend(ps[1..]);
    }
  }

  /** A key/value pair sets the setting its key names, and only that one. */
  lemma GetApplyPair(cfg: Settings, key: string, value: string, k: Key)
    ensures Get(ApplyPair(cfg, key, value), k) == if key == KeyName(k) then value else Get(cfg, k)
  {
  }

  /** The word of a well-formed pair splits into its key and value. */
  lemma ApplyWordOfPair(cfg: Settings, p: Pair)
    requires WellFormed(p)
    ensures ApplyWord(cfg, PairText(p)) == ApplyPair(cfg, p.key, p.value)
  {
    var t := PairText(p);
    IndexOfIs(t, ':', |p.key|);
    assert t[..|p.key|] == p.key;
    assert t[|p.key| + 1..] == p.value;
  }

  /** Applying the text of a well-formed pair sets the setting it names and nothing else. */
  lemma ApplyPairText(cfg: Settings, p: Pair, k: Key)
    requires WellFormed(p)
    ensures Get(ApplyWord(cfg, PairText(p)), k) == if p.key == KeyName(k) then p.value else Get(cfg, k)
  {
    ApplyWordOfPair(cfg, p);
    GetApplyPair(cfg, p.key, p.value, k);
  }

  lemma {:induction false} ApplyPairTexts(cfg: Settings, ps: seq<Pair>, k: Key)
    requires forall i :: 0 <= i < |ps| ==> WellFormed(ps[i])
    ensures Get(ApplyWords(cfg, PairTexts(ps)), k) == LastValue(ps, k, Get(cfg, k))
    decreases |ps|
  {
    if ps != [] {
      var init := ps[..|ps| - 1];
      var last := ps[|ps| - 1];
      PairTextsAppend(ps);
      ApplyWordsAppend(cfg, PairTexts(init), PairText(last));
      ApplyPairTexts(cfg, init, k);
      ApplyPairText(ApplyWords(cfg, PairTexts(init)), last, k);
    }
  }

  /** `parseSettings` on well-formed pairs: every setting ends up with the
      value of the last pair that names it, and keeps its value when no pair
      does; pairs with unknown names change nothing. */
  lemma ParsedSettingsOfJoin(cfg: Settings, ps: seq<Pair>, k: Key)
    requires forall i :: 0 <= i < |ps| ==> WellFormed(ps[i])
    ensures Get(ParsedSettings(cfg, Join(ps)), k) == LastValue(ps, k, Get(cfg, k))
  {
    WordsOfJoin(ps);
    ApplyPairTexts(cfg, ps, k);
  }

  /** A setting no pair names keeps its value. */
  lemma {:induction false} LastValueAbsent(ps: seq<Pair>, k: Key, dflt: string)
    requires forall i :: 0 <= i < |ps| ==> ps[i].key != KeyName(k)
    ensures LastValue(ps, k, dflt) == dflt
    decreases |ps|
  {
    if ps != [] {
      LastValueAbsent(ps[..|ps| - 1], k, dflt);
    }
  }

  /** An `inputs` message without a `local_poll` pair, sent to a sensor that
      still has its declared settings, sets the polling interval to 1000. */
  lemma DefaultPollInterval(ps: seq<Pair>)
    requires forall i :: 0 <= i < |ps| ==> WellFormed(ps[i]) && ps[i].key != "local_poll"
    ensures ParsedSettings(DefaultSettings, Join(ps)).localPoll == "1000"
    ensures ToInt(ParsedSettings(DefaultSettings, Join(ps)).localPoll) == 1000
  {
    LocalPollKept(DefaultSettings, ps);
    ToIntOfLiterals();
  }

  /** Without a `local_poll` pair, `localPoll` keeps its value. */
  lemma LocalPollKept(cfg: Settings, ps: seq<Pair>)
    requires forall i :: 0 <= i < |ps| ==> WellFormed(ps[i]) && ps[i].key != "local_poll"
    ensures ParsedSettings(cfg, Join(ps)).localPoll == cfg.localPoll
  {
    ParsedSettingsOfJoin(cfg, ps, LocalPoll);
    LastValueAbsent(ps, LocalPoll, cfg.localPoll);
  }

  // ------------------------------------------------------------------- zones

  /** The five distance zones, nearest the sensor first. */
  datatype Zone = TooFar | Stop | Warning | Proceed | Waiting

  function Rank(z: Zone): nat {
    match z
    case TooFar => 0
    case Stop => 1
    case Warning => 2
    case Proceed => 3
    case Waiting => 4
  }

  /** The zone `stoplight` puts distance `d` in: the thresholds are tried in
      the fixed order too-far, stop, warning, proceed, each bound inclusive,
      and the first one `d` does not exceed decides. */
  function ZoneOf(d: real, tooFar: int, stop: int, warning: int, proceed: int): (z: Zone)
    ensures z == TooFar <==> d <= tooFar as real
    ensures z == Stop <==> tooFar as real < d <= stop as real
    ensures z == Warning <==> tooFar as real < d && stop as real < d <= warning as real
    ensures z == Proceed <==>
      tooFar as real < d && stop as real < d && warning as real < d <= proceed as real
    ensures z == Waiting <==>
      tooFar as real < d && stop as real < d && warning as real < d && proceed as real < d
  {
    if d <= tooFar as real then TooFar
    else if d <= stop as real then Stop
    else if d <= warning as real then Warning
    else if d <= proceed as real then Proceed
    else Waiting
  }

  /** The zone for `d` under the settings, each threshold read with `toInt`. */
  function ZoneFor(d: real, cfg: Settings): Zone {
    ZoneOf(d, ToInt(cfg.tooFarDistance), ToInt(cfg.stopDistance),
           ToInt(cfg.warningDistance), ToInt(cfg.proceedDistance))
  }

  /** Whatever order the thresholds are in, a nearer distance never falls in a farther zone. */
  lemma ZoneMonotone(d1: real, d2: real, tooFar: int, stop: int, warning: int, proceed: int)
    requires d1 <= d2
    ensures Rank(ZoneOf(d1, tooFar, stop, warning, proceed)) <= Rank(ZoneOf(d2, tooFar, stop, warning, proceed))
  {
  }

  /** With thresholds in ascending order every zone is the interval between
      two consecutive thresholds, inclusive at the far end. */
  lemma AscendingZones(d: real, tooFar: int, stop: int, warning: int, proceed: int)
    requires tooFar < stop < warning < proceed
    ensures var z := ZoneOf(d, tooFar, stop, warning, proceed);
      (z == Stop <==> tooFar as real < d <= stop as real) &&
      (z == Warning <==> stop as real < d <= warning as real) &&
      (z == Proceed <==> warning as real < d <= proceed as real) &&
      (z == Waiting <==> proceed as real < d)
  {
  }

  /** `toInt` reads the decimal text of `n` as `n`. */
  lemma ToIntOfNumeral(n: nat, text: string)
    requires text == NatToString(n)
    ensures ToInt(text) == n
  {
    ToIntOfNatToString(n, "");
    assert text + "" == text;
  }

  /** `toInt` reads a minus sign and the decimal text of `n` as `-n`. */
  lemma ToIntOfNegatedNumeral(n: nat, text: string)
    requires text == "-" + NatToString(n)
    ensures ToInt(text) == -(n as int)
  {
    ToIntOfNegated(n, "");
    assert text + "" == text;
  }

  /** The thresholds the class declares read as the numbers they spell. */
  lemma ToIntOfThresholds()
    ensures ToInt("5") == 5 && ToInt("10") == 10 && ToInt("15") == 15 && ToInt("20") == 20
  {
    ToIntOfNumeral(5, "5");
    ToIntOfNumeral(10, "10");
    ToIntOfNumeral(15, "15");
    ToIntOfNumeral(20, "20");
  }

  lemma ToIntOfLiterals()
    ensures ToInt("0") == 0 && ToInt("5") == 5 && ToInt("10") == 10
    ensures ToInt("15") == 15 && ToInt("20") == 20 && ToInt("1000") == 1000
  {
    ToIntOfThresholds();
    ToIntOfNumeral(0, "0");
    ToIntOfDefaultPoll();
  }

  lemma ToIntOfDefaultPoll()
    ensures ToInt("1000") == 1000
  {
    ToIntOfNumeral(1000, "1000");
  }

  /** The declared thresholds are ascending, and put 5, 10, 15, 20 and 25 cm
      in the too-far, stop, warning, proceed and waiting zones. */
  lemma DefaultZones()
    ensures ToInt(DefaultSettings.tooFarDistance) < ToInt(DefaultSettings.stopDistance)
      < ToInt(DefaultSettings.warningDistance) < ToInt(DefaultSettings.proceedDistance)
    ensures ZoneFor(5.0, DefaultSettings) == TooFar
    ensures ZoneFor(10.0, DefaultSettings) == Stop
    ensures ZoneFor(15.0, DefaultSettings) == Warning
    ensures ZoneFor(20.0, DefaultSettings) == Proceed
    ensures ZoneFor(25.0, DefaultSettings) == Waiting
  {
    ToIntOfLiterals();
  }

  /** A threshold whose text holds no digit acts as a threshold of 0. */
  lemma NonNumericThreshold(d: real, cfg: Settings, k: Key, v: string)
    requires forall i :: 0 <= i < |v| ==> !IsDigit(v[i])
    ensures ZoneFor(d, Set(cfg, k, v)) == ZoneFor(d, Set(cfg, k, "0"))
  {
    ToIntWithoutDigits(v);
    ToIntOfLiterals();
  }

  /** A settings text of one well-formed pair sets the setting it names and nothing else. */
  lemma ParsedSinglePair(cfg: Settings, p: Pair, k: Key)
    requires WellFormed(p)
    ensures Get(ParsedSettings(cfg, PairText(p)), k) == if p.key == KeyName(k) then p.value else Get(cfg, k)
  {
    var ps := [p];
    assert Join(ps) == PairText(p);
    assert ps[..0] == [];
    ParsedSettingsOfJoin(cfg, ps, k);
  }

  /** Sending `stop_distance:n` over the declared settings moves the stop
      bound to `n`: a distance of exactly `n` is a stop, one centimetre more
      is a warning. */
  lemma StopDistanceRoundTrip(n: nat)
    requires 5 < n < 15
    ensures var cfg := ParsedSettings(DefaultSettings, "stop_distance:" + NatToString(n));
      ZoneFor(n as real, cfg) == Stop && ZoneFor((n + 1) as real, cfg) == Warning
  {
    var p := Pair("stop_distance", NatToString(n));
    assert PairText(p) == "stop_distance:" + NatToString(n);
    var cfg := ParsedSettings(DefaultSettings, PairText(p));
    ParsedSinglePair(DefaultSettings, p, StopDistance);
    ParsedSinglePair(DefaultSettings, p, TooFarDistance);
    ParsedSinglePair(DefaultSettings, p, WarningDistance);
    ParsedSinglePair(DefaultSettings, p, ProceedDistance);
    StopZones(n, cfg);
  }

  /** The zones of `n` and `n + 1` once the stop bound is the text of `n`
      and the other thresholds are the declared ones. */
  lemma StopZones(n: nat, cfg: Settings)
    requires 5 < n < 15
    requires cfg.stopDistance == NatToString(n) && cfg.tooFarDistance == "5"
    requires cfg.warningDistance == "15" && cfg.proceedDistance == "20"
    ensures ZoneFor(n as real, cfg) == Stop && ZoneFor((n + 1) as real, cfg) == Warning
  {
    ToIntOfNumeral(n, NatToString(n));
    ToIntOfThresholds();
  }

  // ------------------------------------------------------------------- light

  const RED := "ff0000"
  const YELLOW := "ffff00"
  const GREEN := "00ff00"
  const DARK := "000000"

  /** What one `stoplight` call does: the colour it sends to the RGB device
      and the new value of `previousPIN`. */
  datatype LightStep = LightStep(colour: string, pin: string)

  /** The colour of each zone other than too-far. */
  function SteadyColour(z: Zone): string
    requires z != TooFar
  {
    match z
    case Stop => RED
    case Warning => YELLOW
    case Proceed => GREEN
    case Waiting => DARK
  }

  /** In the too-far zone the red light blinks: it is lit when `previousPIN`
      is "off" and dark otherwise, and `previousPIN` records which. The other
      zones show a fixed colour and leave `previousPIN` alone. */
  function Light(z: Zone, previousPIN: string): (r: LightStep)
    ensures z != TooFar ==> r.pin == previousPIN && r.colour == SteadyColour(z)
    ensures z == TooFar ==> (r.colour == RED || r.colour == DARK)
    ensures z == TooFar ==> (r.colour == RED <==> previousPIN == "off")
    ensures z == TooFar ==> r.pin == if r.colour == RED then "on" else "off"
  {
    if z == TooFar then
      if previousPIN == "off" then LightStep(RED, "on") else LightStep(DARK, "off")
    else LightStep(SteadyColour(z), previousPIN)
  }

  /** The colours `n` successive too-far calls send, starting from `previousPIN == pin`. */
  function TooFarColours(pin: string, n: nat): (cs: seq<string>)
    ensures |cs| == n
    decreases n
  {
    if n == 0 then [] else [Light(TooFar, pin).colour] + TooFarColours(Light(TooFar, pin).pin, n - 1)
  }

  /** Successive too-far calls alternate red and dark, red first when
      `previousPIN` starts "off", as it is declared. */
  lemma {:induction false} TooFarBlinks(pin: string, n: nat, i: nat)
    requires i < n
    ensures TooFarColours(pin, n)[i] == if (i % 2 == 0) == (pin == "off") then RED else DARK
    decreases n
  {
    var next := Light(TooFar, pin).pin;
    TooFarToggles(pin);
    if i > 0 {
      assert TooFarColours(pin, n)[i] == TooFarColours(next, n - 1)[i - 1];
      TooFarBlinks(next, n - 1, i - 1);
      assert ((i - 1) % 2 == 0) == (i % 2 != 0);
      assert (((i - 1) % 2 == 0) == (next == "off")) == ((i % 2 == 0) == (pin == "off"));
    }
  }

  /** One too-far call shows red exactly when `previousPIN` is "off", and
      leaves `previousPIN` "off" exactly when it was not. */
  lemma TooFarToggles(pin: string)
    ensures Light(TooFar, pin).colour == if pin == "off" then RED else DARK
    ensures Light(TooFar, pin).pin == "off" <==> pin != "off"
  {
  }

  /** Outside the too-far zone the same distance gets the same colour on every call. */
  lemma SteadyRepeats(z: Zone, pin: string)
    requires z != TooFar
    ensures Light(z, Light(z, pin).pin) == Light(z, pin)
  {
  }

  // --------------------------------------------------------------- reporting

  /** The initial `previousMillis`. */
  const InitialPreviousMillis: U32 := 100000000

  /** `now - previous` in `unsigned long` arithmetic: the difference, or the
      difference plus 2^32 when the clock has wrapped in between. */
  function Elapsed(now: U32, previous: U32): (e: U32)
    ensures previous <= now ==> e == now - previous
    ensures now < previous ==> e == now - previous + UINT_MAX + 1
  {
    ToUnsigned(now - previous)
  }

  /** `stInterval * 1000` in `unsigned long` arithmetic. */
  function IntervalMillis(stInterval: U32): (m: U32)
    ensures stInterval * 1000 <= UINT_MAX ==> m == stInterval * 1000
  {
    ToUnsigned(stInterval * 1000)
  }

  /** Whether `getData` reports at `now` when the last report was at `previous`. */
  predicate ReportDue(now: U32, previous: U32, stInterval: U32) {
    Elapsed(now, previous) >= IntervalMillis(stInterval)
  }

  /** The times at which successive `getData` calls at `times` report, when
      the last report was at `previous`. */
  function Reports(previous: U32, times: seq<U32>, stInterval: U32): (r: seq<U32>)
    ensures |r| <= |times|
    ensures forall i :: 0 <= i < |r| ==> r[i] in times
    decreases |times|
  {
    if times == [] then []
    else if ReportDue(times[0], previous, stInterval) then
      [times[0]] + Reports(times[0], times[1..], stInterval)
    else Reports(previous, times[1..], stInterval)
  }

  /** Every report comes at least `stInterval * 1000` ms (in `unsigned long`
      arithmetic) after the one before it, the first after `previous`. */
  lemma {:induction false} ReportsSpaced(previous: U32, times: seq<U32>, stInterval: U32, i: nat)
    requires i < |Reports(previous, times, stInterval)|
    ensures var r := Reports(previous, times, stInterval);
      Elapsed(r[i], if i == 0 then previous else r[i - 1]) >= IntervalMillis(stInterval)
    decreases |times|
  {
    if ReportDue(times[0], previous, stInterval) {
      if i > 0 {
        ReportsSpaced(times[0], times[1..], stInterval, i - 1);
      }
    } else {
      ReportsSpaced(previous, times[1..], stInterval, i);
    }
  }

  /** Two calls less than `stInterval * 1000` ms apart report at most once. */
  lemma AtMostOneReport(previous: U32, t1: U32, t2: U32, stInterval: U32)
    requires Elapsed(t2, t1) < IntervalMillis(stInterval)
    ensures |Reports(previous, [t1, t2], stInterval)| <= 1
  {
    assert [t1, t2][1..] == [t2];
    assert [t2][1..] == [];
    if ReportDue(t1, previous, stInterval) {
      assert Reports(t1, [t2], stInterval) == [];
    } else {
      assert |Reports(previous, [t2], stInterval)| <= 1;
    }
  }

  /** With `stInterval` 5 (seconds), two calls 1000 ms apart report at most once. */
  lemma RateLimitExample(previous: U32, t1: U32)
    requires t1 + 1000 <= UINT_MAX
    ensures |Reports(previous, [t1, t1 + 1000], 5)| <= 1
  {
    AtMostOneReport(previous, t1, t1 + 1000, 5);
  }

  /** From the declared `previousMillis`, a first call before 100000000 ms
      sees at least 2^32 - 100000000 ms elapsed, and so reports unless
      `stInterval * 1000` is larger than that. */
  lemma FirstReportImmediate(now: U32, stInterval: U32)
    requires now < InitialPreviousMillis
    requires IntervalMillis(stInterval) <= UINT_MAX + 1 - InitialPreviousMillis
    ensures Elapsed(now, InitialPreviousMillis) >= UINT_MAX + 1 - InitialPreviousMillis
    ensures ReportDue(now, InitialPreviousMillis, stInterval)
  {
  }

  /** `String(value)` for a float: two decimals, rounded half up. */
  function DistanceText(d: real): (r: string)
    requires d >= 0.0
    ensures |r| >= 4 && r[|r| - 3] == '.'
    ensures ToInt(r) == Hundredths(d) / 100
  {
    var h := Hundredths(d);
    var t := "." + [DigitChar(h / 10 % 10), DigitChar(h % 10)];
    ToIntOfNatToString(h / 100, t);
    NatToString(h / 100) + t
  }

  /** The digits of the report text, with the point left out, read back as
      the distance in hundredths. */
  lemma DistanceTextDigits(d: real)
    requires d >= 0.0
    ensures var r := DistanceText(d);
      AllDigits(r[..|r| - 3]) && AllDigits(r[|r| - 2..]) &&
      DecimalValue(r[..|r| - 3] + r[|r| - 2..]) == Hundredths(d)
  {
    var h := Hundredths(d);
    var p := NatToString(h / 100);
    var a, b := DigitChar(h / 10 % 10), DigitChar(h % 10);
    var r := DistanceText(d);
    assert r == p + "." + [a, b];
    assert r[..|r| - 3] == p;
    assert r[|r| - 2..] == [a, b];
    DecimalValueOfNatToString(h / 100);
    DecimalValueOfTwoMore(p, a, b);
    HundredthsSplit(h);
  }

  /** Two more digits after a run of digits multiply its value by 100 and add theirs. */
  lemma DecimalValueOfTwoMore(p: string, a: char, b: char)
    requires AllDigits(p) && IsDigit(a) && IsDigit(b)
    ensures AllDigits(p + [a, b])
    ensures DecimalValue(p + [a, b]) == DecimalValue(p) * 100 + DigitValue(a) * 10 + DigitValue(b)
  {
    var q := p + [a, b];
    assert q[..|q| - 1] == p + [a];
    assert (p + [a])[..|p + [a]| - 1] == p;
  }

  /** A number is its hundreds, its tens digit and its units digit put together. */
  lemma HundredthsSplit(h: nat)
    ensures h / 100 * 100 + h / 10 % 10 * 10 + h % 10 == h
  {
    assert h == h / 10 * 10 + h % 10;
    assert h / 10 == h / 10 / 10 * 10 + h / 10 % 10;
    assert h / 10 / 10 == h / 100;
  }

  /** `d` in hundredths, rounded half up. */
  function Hundredths(d: real): nat
    requires d >= 0.0
  {
    (d * 100.0 + 0.5).Floor
  }

  // ---------------------------------------------------------------- messages

  /** What `beSmart` makes of a hub message. */
  datatype Inbound = Inputs(settings: string) | ReportInterval(value: int) | Ignored

  /** `beSmart`'s reading of a message: the first word (the device name) is
      dropped and the rest is read by `DispatchText`. */
  function Dispatch(str: string): (m: Inbound)
    requires |str| <= UINT_MAX
  {
    DispatchText(After(str, ' '))
  }

  /** `beSmart`'s reading of the text after the device name: if its first
      word is `inputs`, what follows is settings text; otherwise a non-zero
      leading integer is a new report interval, and anything else is ignored. */
  function DispatchText(s: string): (m: Inbound)
    requires |s| <= UINT_MAX
    ensures m.ReportInterval? ==> m.value != 0 && m.value == ToInt(s)
    ensures m.Inputs? ==> |m.settings| <= |s| && |m.settings| < UINT_MAX
  {
    if UpTo(s, ' ') == "inputs" then Inputs(After(s, ' '))
    else if ToInt(s) != 0 then ReportInterval(ToInt(s))
    else Ignored
  }

  /** The text after the device name, which `beSmart` works on. */
  lemma AfterName(name: string, rest: string)
    requires ' ' !in name && |name| + 1 + |rest| <= UINT_MAX
    ensures After(name + " " + rest, ' ') == rest
  {
    var str := name + " " + rest;
    IndexOfIs(str, ' ', |name|);
    assert str[|name| + 1..] == rest;
  }

  /** The device name is dropped whatever follows it. */
  lemma DispatchAfterName(name: string, rest: string)
    requires ' ' !in name && |name| + 1 + |rest| <= UINT_MAX
    ensures Dispatch(name + " " + rest) == DispatchText(rest)
  {
    AfterName(name, rest);
  }

  /** The first word `beSmart` extracts is `inputs` only if the text starts with it. */
  lemma FirstWordIsPrefix(s: string)
    requires |s| <= UINT_MAX
    requires UpTo(s, ' ') == "inputs"
    ensures |s| >= 6 && s[..6] == "inputs"
  {
  }

  /** Text that does not start with `i` has no first word `inputs`. */
  lemma NotInputs(s: string)
    requires |s| <= UINT_MAX
    requires |s| > 0 && s[0] != 'i'
    ensures UpTo(s, ' ') != "inputs"
  {
    if UpTo(s, ' ') == "inputs" {
      FirstWordIsPrefix(s);
    }
  }

  /** `inputs <settings>` is read as settings text. */
  lemma DispatchInputs(settings: string)
    requires 7 + |settings| <= UINT_MAX
    ensures DispatchText("inputs " + settings) == Inputs(settings)
  {
    var rest := "inputs " + settings;
    IndexOfIs(rest, ' ', 6);
    assert rest[..6] == "inputs";
    assert rest[7..] == settings;
  }

  /** `<n>` is read as report interval `n`, except that 0 is ignored. */
  lemma DispatchNumber(n: nat)
    requires |NatToString(n)| <= UINT_MAX
    ensures DispatchText(NatToString(n)) == if n == 0 then Ignored else ReportInterval(n)
  {
    ToIntOfNumeral(n, NatToString(n));
    NotInputs(NatToString(n));
  }

  /** `-<n>` is read as report interval `-n`, which the 32-bit unsigned
      `stInterval` stores as 2^32 - n. */
  lemma DispatchNegative(n: nat)
    requires 1 + |NatToString(n)| <= UINT_MAX && 0 < n <= UINT_MAX
    ensures DispatchText("-" + NatToString(n)) == ReportInterval(-(n as int))
    ensures ToUnsigned(-(n as int)) == UINT_MAX + 1 - n
  {
    var rest := "-" + NatToString(n);
    ToIntOfNegatedNumeral(n, rest);
    NotInputs(rest);
  }

  /** Text that holds no digit and whose first word is not `inputs` is ignored. */
  lemma DispatchWithoutDigits(rest: string)
    requires |rest| <= UINT_MAX
    requires forall i :: 0 <= i < |rest| ==> !IsDigit(rest[i])
    requires UpTo(rest, ' ') != "inputs"
    ensures DispatchText(rest) == Ignored
  {
    ToIntWithoutDigits(rest);
  }

  /** "garbage text" is ignored. */
  lemma GarbageIgnored()
    ensures Dispatch("garbage text") == Ignored
  {
    GarbageSplits();
    DispatchAfterName("garbage", "text");
    TextIgnored();
  }

  lemma GarbageSplits()
    ensures "garbage text" == "garbage" + " " + "text"
    ensures ' ' !in "garbage"
  {
  }

  lemma TextIgnored()
    ensures DispatchText("text") == Ignored
  {
    var t := "text";
    assert forall i :: 0 <= i < |t| ==> !IsDigit(t[i]);
    NotInputs(t);
    DispatchWithoutDigits(t);
  }
}

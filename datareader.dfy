/**
 * The pure parts of the data reader: choosing the indicator by name,
 * picking and converting its parameters, feeding the first column of the
 * fetched table to the calculator, upper-casing the result's column names,
 * the parameter labels it prints, the dataset name it fetches, the heading
 * it prints and the row cap it sets.
 */
module DataReader {
  import opened Wrappers
  import opened Series
  import Macd
  import BollingerBands
  import Rsi

  /** Everything that can go wrong in the modelled code. */
  datatype Error =
    | InvalidIndicator(message: string)           // `ValueError("invalid indicator: ...")`
    | MissingParameter(key: string)               // `KeyError` from `kwargs[k]`
    | BadInteger(key: string, text: string)       // `ValueError` from `int(kwargs[k])`
    | EmptyNameList                               // `IndexError` from `name[0]`
    | BadMaxRows(text: string)                    // `ValueError` from `int(max_rows)`
    | NoColumns                                   // `IndexError` from `iloc[:, 0]`
    | MacdConfig(cause: Macd.ConfigError)
    | MacdFailed(macdCause: Macd.Error)
    | BollingerBandsFailed(bbCause: BollingerBands.Error)
    | RsiFailed(rsiCause: Rsi.Error)

  // ---------------------------------------------------------------------
  // Indicator dispatch
  // ---------------------------------------------------------------------

  datatype Indicator = MacdIndicator | BollingerBandsIndicator | RsiIndicator

  /** The name that selects each indicator. */
  function IndicatorName(ind: Indicator): string {
    match ind
    case MacdIndicator => "macd"
    case BollingerBandsIndicator => "bb"
    case RsiIndicator => "rsi"
  }

  /** The `if/elif` chain on the indicator name. */
  function ParseIndicator(name: string): (r: Result<Indicator, Error>)
    ensures r.Success? ==> IndicatorName(r.value) == name
    ensures r.Failure? ==> r.error == InvalidIndicator("invalid indicator: " + name)
  {
    if name == "macd" then Success(MacdIndicator)
    else if name == "bb" then Success(BollingerBandsIndicator)
    else if name == "rsi" then Success(RsiIndicator)
    else Failure(InvalidIndicator("invalid indicator: " + name))
  }

  /** Every indicator's own name selects it, and no other name selects anything. */
  lemma ParseIndicatorIff(name: string)
    ensures ParseIndicator(name).Success? <==> name == "macd" || name == "bb" || name == "rsi"
    ensures forall ind :: ParseIndicator(IndicatorName(ind)) == Success(ind)
  {
    forall ind: Indicator
      ensures ParseIndicator(IndicatorName(ind)) == Success(ind)
    {
      match ind
      case MacdIndicator =>
      case BollingerBandsIndicator =>
        assert IndicatorName(ind) != "macd";
      case RsiIndicator =>
        assert IndicatorName(ind) != "macd" && IndicatorName(ind) != "bb";
    }
  }

  /** The parameter keys each indicator takes, in order. */
  function ParamKeys(ind: Indicator): (r: seq<string>)
    ensures |r| == (if ind == BollingerBandsIndicator then 2 else 3)
    ensures forall i, j :: 0 <= i < j < |r| ==> r[i] != r[j]
  {
    match ind
    case MacdIndicator => ["fast_ema_span", "slow_ema_span", "macd_ema_span"]
    case BollingerBandsIndicator => ["window_size", "sd_multiplier"]
    case RsiIndicator => ["window_size", "upper_line", "lower_line"]
  }

  // ---------------------------------------------------------------------
  // Integers and their text
  // ---------------------------------------------------------------------

  predicate IsDigit(c: char) {
    '0' <= c <= '9'
  }

  predicate AllDigits(s: string) {
    forall i :: 0 <= i < |s| ==> IsDigit(s[i])
  }

  function DigitValue(c: char): (d: nat)
    requires IsDigit(c)
    ensures d < 10
  {
    c as int - '0' as int
  }

  function DigitChar(d: nat): (c: char)
    requires d < 10
    ensures IsDigit(c) && DigitValue(c) == d
  {
    ('0' as int + d) as char
  }

  /** The number a run of decimal digits denotes. */
  function DigitsValue(s: string): nat
    requires AllDigits(s)
  {
    if s == [] then 0 else 10 * DigitsValue(s[..|s| - 1]) + DigitValue(s[|s| - 1])
  }

  /** Text `int()` accepts here: digits, or a sign followed by digits. */
  predicate IntegerText(s: string) {
    (s != [] && AllDigits(s)) || (|s| > 1 && (s[0] == '-' || s[0] == '+') && AllDigits(s[1..]))
  }

  /** `int(text)`: an optional sign followed by one or more decimal digits. */
  function ParseInt(s: string): (r: Option<int>)
    ensures r.Some? <==> IntegerText(s)
  {
    var signed := |s| > 0 && (s[0] == '-' || s[0] == '+');
    var body := if signed then s[1..] else s;
    if body != [] && AllDigits(body) then
      var m: int := DigitsValue(body);
      Some(if signed && s[0] == '-' then -m else m)
    else
      None
  }

  /** `str(n)` for a non-negative n: its decimal digits, no leading zero. */
  function NatToString(n: nat): (s: string)
    ensures s != [] && AllDigits(s)
    ensures |s| > 1 ==> s[0] != '0'
  {
    if n < 10 then [DigitChar(n)] else NatToString(n / 10) + [DigitChar(n % 10)]
  }

  /** `str(n)` */
  function IntToString(n: int): (s: string)
    ensures s != []
  {
    if n < 0 then "-" + NatToString(-n) else NatToString(n)
  }

  lemma {:induction false} DigitsOfNatToString(n: nat)
    ensures DigitsValue(NatToString(n)) == n
  {
    var s := NatToString(n);
    if n >= 10 {
      DigitsOfNatToString(n / 10);
      assert s[..|s| - 1] == NatToString(n / 10);
    } else {
      assert s[..|s| - 1] == [];
    }
  }

  lemma ParseUnsigned(s: string)
    requires s != [] && AllDigits(s)
    ensures ParseInt(s) == Some(DigitsValue(s))
  {
    assert s[0] != '-' && s[0] != '+' by {
      assert IsDigit(s[0]);
    }
  }

  lemma ParseNegative(s: string)
    requires s != [] && AllDigits(s)
    ensures ParseInt("-" + s) == Some(-(DigitsValue(s) as int))
  {
    assert ("-" + s)[1..] == s;
  }

  /** `int(str(n)) == n` */
  lemma ParseIntToString(n: int)
    ensures ParseInt(IntToString(n)) == Some(n)
  {
    if n < 0 {
      DigitsOfNatToString(-n);
      ParseNegative(NatToString(-n));
    } else {
      DigitsOfNatToString(n);
      ParseUnsigned(NatToString(n));
    }
  }

  lemma ParseIntExamples()
    ensures ParseInt("12") == Some(12) && ParseInt("-3") == Some(-3) && ParseInt("+7") == Some(7)
    ensures ParseInt("") == None && ParseInt("-") == None && ParseInt("1.5") == None
  {
    assert "12"[..1] == "1" && "1"[..0] == [];
    assert "-3"[1..] == "3" && "3"[..0] == [];
    assert "+7"[1..] == "7" && "7"[..0] == [];
    assert !IsDigit("1.5"[1]);
  }

  // ---------------------------------------------------------------------
  // Parameter selection
  // ---------------------------------------------------------------------

  /**
   * `{k: int(kwargs[k]) for k in keys}`: the keys in order, each looked up
   * and converted; the first key that is missing or not an integer fails.
   */
  function SelectParams(keys: seq<string>, kwargs: map<string, string>): (r: Result<seq<(string, int)>, Error>)
    ensures r.Success? ==> |r.value| == |keys|
    ensures r.Failure? && r.error.MissingParameter? ==> r.error.key in keys && r.error.key !in kwargs
    ensures r.Failure? && r.error.BadInteger? ==>
      r.error.key in keys && r.error.key in kwargs && r.error.text == kwargs[r.error.key]
      && ParseInt(r.error.text).None?
    ensures r.Failure? ==> r.error.MissingParameter? || r.error.BadInteger?
  {
    if keys == [] then Success([])
    else if keys[0] !in kwargs then Failure(MissingParameter(keys[0]))
    else
      match ParseInt(kwargs[keys[0]])
      case None => Failure(BadInteger(keys[0], kwargs[keys[0]]))
      case Some(n) =>
        match SelectParams(keys[1..], kwargs)
        case Failure(e) => Failure(e)
        case Success(rest) => Success([(keys[0], n)] + rest)
  }

  /** On success the parameters are the keys in order, each with the integer its text denotes. */
  lemma {:induction false} SelectParamsValues(keys: seq<string>, kwargs: map<string, string>)
    requires SelectParams(keys, kwargs).Success?
    ensures var ps := SelectParams(keys, kwargs).value;
      forall i :: 0 <= i < |keys| ==>
        ps[i].0 == keys[i] && keys[i] in kwargs && ParseInt(kwargs[keys[i]]) == Some(ps[i].1)
  {
    if keys != [] {
      SelectParamsValues(keys[1..], kwargs);
      var ps := SelectParams(keys, kwargs).value;
      var rest := SelectParams(keys[1..], kwargs).value;
      assert ps == [(keys[0], ParseInt(kwargs[keys[0]]).value)] + rest;
      forall i | 0 < i < |keys|
        ensures ps[i] == rest[i - 1] && keys[i] == keys[1..][i - 1]
      {
      }
    }
  }

  /** Selection succeeds exactly when every key is given as an integer. */
  lemma {:induction false} SelectParamsSucceedsIff(keys: seq<string>, kwargs: map<string, string>)
    ensures SelectParams(keys, kwargs).Success?
      <==> forall k :: k in keys ==> k in kwargs && ParseInt(kwargs[k]).Some?
  {
    if keys != [] {
      SelectParamsSucceedsIff(keys[1..], kwargs);
      assert forall k :: k in keys <==> k == keys[0] || k in keys[1..];
    }
  }

  // ---------------------------------------------------------------------
  // Upper case, labels and column names
  // ---------------------------------------------------------------------

  /** `str.upper` on ASCII letters. */
  function UpperChar(c: char): char {
    if 'a' <= c <= 'z' then (c as int - 32) as char else c
  }

  const LowerLetters: string := "abcdefghijklmnopqrstuvwxyz"
  const UpperLetters: string := "ABCDEFGHIJKLMNOPQRSTUVWXYZ"

  /** The `k`-th lower-case letter becomes the `k`-th upper-case one. */
  lemma UpperCharOfLetter(k: nat)
    requires k < 26
    ensures UpperChar(LowerLetters[k]) == UpperLetters[k]
  {
  }

  /** `c` is the letter of the alphabet at its distance from `'a'`. */
  lemma LetterAt(c: char)
    requires 'a' <= c <= 'z'
    ensures LowerLetters[c as int - 'a' as int] == c
  {
  }

  /** A lower-case ASCII letter becomes the upper-case letter at the same place in the alphabet. */
  lemma UpperCharMapsLetter(c: char)
    requires 'a' <= c <= 'z'
    ensures UpperChar(c) == UpperLetters[c as int - 'a' as int]
  {
    LetterAt(c);
    UpperCharOfLetter(c as int - 'a' as int);
  }

  function Upper(s: string): (r: string)
    ensures |r| == |s|
    ensures forall i :: 0 <= i < |s| ==> !('a' <= r[i] <= 'z')
    ensures forall i :: 0 <= i < |s| && 'a' <= s[i] <= 'z' ==> r[i] == UpperLetters[s[i] as int - 'a' as int]
    ensures forall i :: 0 <= i < |s| && !('a' <= s[i] <= 'z') ==> r[i] == s[i]
  {
    var r := seq(|s|, i requires 0 <= i < |s| => UpperChar(s[i]));
    assert forall i :: 0 <= i < |s| && 'a' <= s[i] <= 'z' ==> r[i] == UpperLetters[s[i] as int - 'a' as int] by {
      forall i | 0 <= i < |s| && 'a' <= s[i] <= 'z' {
        UpperCharMapsLetter(s[i]);
      }
    }
    r
  }

  /**
   * Upper-casing turns each lower-case letter into its upper-case
   * counterpart, leaves no lower-case letter, changes nothing else, and is
   * idempotent.
   */
  lemma UpperProperties(s: string)
    ensures forall i :: 0 <= i < |s| && 'a' <= s[i] <= 'z' ==> Upper(s)[i] == UpperLetters[s[i] as int - 'a' as int]
    ensures forall i :: 0 <= i < |s| ==> !('a' <= Upper(s)[i] <= 'z')
    ensures forall i :: 0 <= i < |s| && !('a' <= s[i] <= 'z') ==> Upper(s)[i] == s[i]
    ensures Upper(Upper(s)) == Upper(s)
  {
  }

  /** `str.replace('_', ' ')` */
  function UnderscoresToSpaces(s: string): (r: string)
    ensures |r| == |s|
  {
    seq(|s|, i requires 0 <= i < |s| => if s[i] == '_' then ' ' else s[i])
  }

  /**
   * The line `_print_key_values` prints for one parameter. It splits back
   * into its parts: the key, upper-cased with spaces for underscores; the
   * separator `:\t`; and the value's text, which reads back as the value.
   */
  function Label(key: string, v: int): (r: string)
    ensures |r| > |key| + 2
    ensures r[..|key|] == UnderscoresToSpaces(Upper(key)) && r[|key|..|key| + 2] == ":\t"
    ensures '_' !in r[..|key|]
    ensures ParseInt(r[|key| + 2..]) == Some(v)
  {
    var r := UnderscoresToSpaces(Upper(key)) + ":\t" + IntToString(v);
    assert r[|key| + 2..] == IntToString(v);
    ParseIntToString(v);
    r
  }

  /** The lines `_print_key_values` prints: one label per parameter, in order. */
  function KeyValueLines(params: seq<(string, int)>): (lines: seq<string>)
    ensures |lines| == |params|
  {
    seq(|params|, i requires 0 <= i < |params| => Label(params[i].0, params[i].1))
  }

  /** The loop of `_print_key_values`, collecting what it prints. */
  method PrintKeyValues(params: seq<(string, int)>) returns (lines: seq<string>)
    ensures lines == KeyValueLines(params)
  {
    lines := [];
    var i := 0;
    while i < |params|
      invariant 0 <= i <= |params|
      invariant lines == KeyValueLines(params[..i])
    {
      var (k, v) := params[i];
      lines := lines + [Label(k, v)];
      i := i + 1;
      assert params[..i] == params[..i - 1] + [params[i - 1]];
    }
    assert params[..i] == params;
  }

  lemma KeyValueLinesExample()
    ensures KeyValueLines([("fast_ema_span", 12), ("slow_ema_span", 26)])
      == ["FAST EMA SPAN:\t12", "SLOW EMA SPAN:\t26"]
  {
    FastSpanLabel();
    SlowSpanLabel();
  }

  lemma FastSpanLabel()
    ensures Label("fast_ema_span", 12) == "FAST EMA SPAN:\t12"
  {
    assert UnderscoresToSpaces(Upper("fast_ema_span")) == "FAST EMA SPAN" by {
      assert Upper("fast_ema_span") == "FAST_EMA_SPAN";
    }
    assert IntToString(12) == "12";
  }

  lemma SlowSpanLabel()
    ensures Label("slow_ema_span", 26) == "SLOW EMA SPAN:\t26"
  {
    assert UnderscoresToSpaces(Upper("slow_ema_span")) == "SLOW EMA SPAN" by {
      assert Upper("slow_ema_span") == "SLOW_EMA_SPAN";
    }
    assert IntToString(26) == "26";
  }

  /** The rename `{k: k.upper() for k in d.columns}`, order kept. */
  function UpperColumns(cols: seq<string>): (r: seq<string>)
    ensures |r| == |cols| && forall i :: 0 <= i < |cols| ==> r[i] == Upper(cols[i])
  {
    seq(|cols|, i requires 0 <= i < |cols| => Upper(cols[i]))
  }

  lemma UpperColumnsOfCalculators()
    ensures UpperColumns(Macd.Columns) == ["VALUE", "MACD", "MACD_EMA", "SIGNAL"]
    ensures UpperColumns(BollingerBands.Columns) == ["VALUE", "MA", "SD", "LOWER_BB", "UPPER_BB", "SIGNAL"]
    ensures UpperColumns(Rsi.Columns) == ["VALUE", "RS", "RSI", "SIGNAL"]
  {
    assert Upper("value") == "VALUE" && Upper("signal") == "SIGNAL";
    assert Upper("macd") == "MACD" && Upper("macd_ema") == "MACD_EMA";
    assert Upper("ma") == "MA" && Upper("sd") == "SD";
    assert Upper("lower_bb") == "LOWER_BB" && Upper("upper_bb") == "UPPER_BB";
    assert Upper("rs") == "RS" && Upper("rsi") == "RSI";
  }

  // ---------------------------------------------------------------------
  // Fetch name, heading and row cap
  // ---------------------------------------------------------------------

  /** A dataset name argument: one name or a list of names. */
  datatype Names = One(name: string) | Many(names: seq<string>)

  /** The name passed on: unchanged for one name or for `fred` and `iex`, else the first of the list. */
  function FetchName(name: Names, dataSource: string): (r: Result<Names, Error>)
    ensures r.Failure? <==> name.Many? && dataSource != "fred" && dataSource != "iex" && name.names == []
    ensures r.Success? && (name.One? || dataSource in {"fred", "iex"}) ==> r.value == name
    ensures r.Success? && name.Many? && dataSource !in {"fred", "iex"} ==> r.value == One(name.names[0])
  {
    if name.One? || dataSource == "fred" || dataSource == "iex" then Success(name)
    else if name.names == [] then Failure(EmptyNameList)
    else Success(One(name.names[0]))
  }

  /** `sep.join(xs)` */
  function Join(sep: string, xs: seq<string>): string {
    if xs == [] then "" else if |xs| == 1 then xs[0] else xs[0] + sep + Join(sep, xs[1..])
  }

  function TotalLength(xs: seq<string>): nat {
    if xs == [] then 0 else |xs[0]| + TotalLength(xs[1..])
  }

  /** The join is as long as its elements plus one separator between each two. */
  lemma {:induction false} JoinLength(sep: string, xs: seq<string>)
    requires xs != []
    ensures |Join(sep, xs)| == TotalLength(xs) + (|xs| - 1) * |sep|
  {
    if |xs| > 1 {
      JoinLength(sep, xs[1..]);
    } else {
      assert xs[1..] == [];
    }
  }

  /** The first element starts the join. */
  lemma JoinStartsWithFirst(sep: string, xs: seq<string>)
    requires xs != []
    ensures |xs[0]| <= |Join(sep, xs)| && Join(sep, xs)[..|xs[0]|] == xs[0]
  {
  }

  /** Where element `i` starts in the join: the elements before it and one separator after each. */
  function JoinOffset(sep: string, xs: seq<string>, i: nat): nat
    requires i <= |xs|
  {
    TotalLength(xs[..i]) + i * |sep|
  }

  /**
   * From position `start` on, `r` holds exactly the elements of `xs`, each
   * at its offset, with `sep` between each two and nothing after the last.
   */
  predicate LaidOut(r: string, start: nat, sep: string, xs: seq<string>) {
    (forall i :: 0 <= i < |xs| ==>
      start + JoinOffset(sep, xs, i) + |xs[i]| <= |r| &&
      r[start + JoinOffset(sep, xs, i)..start + JoinOffset(sep, xs, i) + |xs[i]|] == xs[i]) &&
    (forall i {:trigger xs[i]} :: 0 <= i < |xs| - 1 ==>
      JoinOffset(sep, xs, i + 1) == JoinOffset(sep, xs, i) + |xs[i]| + |sep| &&
      start + JoinOffset(sep, xs, i + 1) <= |r| &&
      r[start + JoinOffset(sep, xs, i) + |xs[i]|..start + JoinOffset(sep, xs, i + 1)] == sep) &&
    (xs != [] ==> |r| == start + JoinOffset(sep, xs, |xs| - 1) + |xs[|xs| - 1]|) &&
    (xs == [] ==> |r| == start)
  }

  lemma JoinOffsetShift(sep: string, xs: seq<string>, j: nat)
    requires 1 <= j <= |xs|
    ensures JoinOffset(sep, xs, j) == |xs[0]| + |sep| + JoinOffset(sep, xs[1..], j - 1)
  {
    assert xs[..j][1..] == xs[1..][..j - 1];
    assert j * |sep| == (j - 1) * |sep| + |sep|;
  }

  lemma SliceBehindPrefix(pre: string, s: string, a: nat, b: nat)
    requires a <= b <= |s|
    ensures (pre + s)[|pre| + a..|pre| + b] == s[a..b]
  {
  }

  /** Element `i` sits at its offset in the join, and the last one ends it. */
  lemma {:induction false} JoinElementAt(sep: string, xs: seq<string>, i: nat)
    requires i < |xs|
    ensures JoinOffset(sep, xs, i) + |xs[i]| <= |Join(sep, xs)|
    ensures Join(sep, xs)[JoinOffset(sep, xs, i)..JoinOffset(sep, xs, i) + |xs[i]|] == xs[i]
    ensures i + 1 == |xs| ==> JoinOffset(sep, xs, i) + |xs[i]| == |Join(sep, xs)|
  {
    assert xs[..0] == [];
    if |xs| > 1 {
      var head := xs[0] + sep;
      var rest := Join(sep, xs[1..]);
      assert Join(sep, xs) == head + rest;
      if i > 0 {
        JoinElementAt(sep, xs[1..], i - 1);
        JoinOffsetShift(sep, xs, i);
        assert xs[1..][i - 1] == xs[i];
        var p := JoinOffset(sep, xs[1..], i - 1);
        SliceBehindPrefix(head, rest, p, p + |xs[i]|);
      }
    }
  }

  /** A separator follows every element but the last, up to where the next one starts. */
  lemma {:induction false} JoinSeparatorAt(sep: string, xs: seq<string>, i: nat)
    requires i + 1 < |xs|
    ensures JoinOffset(sep, xs, i + 1) == JoinOffset(sep, xs, i) + |xs[i]| + |sep|
    ensures JoinOffset(sep, xs, i + 1) <= |Join(sep, xs)|
    ensures Join(sep, xs)[JoinOffset(sep, xs, i) + |xs[i]|..JoinOffset(sep, xs, i + 1)] == sep
  {
    var head := xs[0] + sep;
    var rest := Join(sep, xs[1..]);
    assert Join(sep, xs) == head + rest;
    JoinOffsetShift(sep, xs, i + 1);
    if i == 0 {
      assert xs[..0] == [];
      assert xs[1..][..0] == [];
    } else {
      JoinSeparatorAt(sep, xs[1..], i - 1);
      JoinOffsetShift(sep, xs, i);
      assert xs[1..][i - 1] == xs[i];
      var p := JoinOffset(sep, xs[1..], i - 1) + |xs[i]|;
      SliceBehindPrefix(head, rest, p, JoinOffset(sep, xs[1..], i));
    }
  }

  /** The join is exactly its elements, at their offsets, with a separator between each two. */
  lemma JoinContents(sep: string, xs: seq<string>)
    ensures LaidOut(Join(sep, xs), 0, sep, xs)
  {
    forall i | 0 <= i < |xs| {
      JoinElementAt(sep, xs, i);
    }
    forall i {:trigger xs[i]} | 0 <= i < |xs| - 1 {
      JoinSeparatorAt(sep, xs, i);
    }
  }

  /** The heading line printed before the results: the prefix, then the one name or the names joined by `", "`. */
  function Heading(name: Names): (r: string)
    ensures |r| >= |HeadingPrefix| && r[..|HeadingPrefix|] == HeadingPrefix
    ensures name.One? ==> r[|HeadingPrefix|..] == name.name
    ensures name.Many? ==> LaidOut(r[|HeadingPrefix|..], 0, ", ", name.names)
  {
    match name
    case One(s) => HeadingPrefix + s
    case Many(ns) =>
      JoinContents(", ", ns);
      assert (HeadingPrefix + Join(", ", ns))[|HeadingPrefix|..] == Join(", ", ns);
      HeadingPrefix + Join(", ", ns)
  }

  const HeadingPrefix: string := ">>\tPrint results:\t"

  lemma HeadingExample()
    ensures Heading(Many(["SPY", "QQQ"])) == ">>\tPrint results:\tSPY, QQQ"
    ensures Heading(One("SPY")) == ">>\tPrint results:\tSPY"
  {
    var ns := ["SPY", "QQQ"];
    assert Join(", ", ns) == "SPY, QQQ" by {
      assert ns[1..] == ["QQQ"];
    }
    assert Heading(Many(ns)) == HeadingPrefix + "SPY, QQQ";
  }

  /** The `max_rows` argument: absent, a string, or a number. */
  datatype MaxRowsArg = NoMaxRows | MaxRowsText(text: string) | MaxRowsNumber(n: int)

  /** `int(max_rows) if max_rows else None`: an empty string and 0 are falsy. */
  function MaxRows(arg: MaxRowsArg): (r: Result<Option<int>, Error>)
    ensures r == Success(None) <==>
      arg.NoMaxRows? || arg == MaxRowsText("") || arg == MaxRowsNumber(0)
    ensures r.Failure? <==> arg.MaxRowsText? && arg.text != "" && ParseInt(arg.text).None?
    ensures r.Success? && r.value.Some? && arg.MaxRowsText? ==> ParseInt(arg.text) == r.value
    ensures r.Success? && r.value.Some? && arg.MaxRowsNumber? ==> r.value == Some(arg.n)
  {
    match arg
    case NoMaxRows => Success(None)
    case MaxRowsText(t) =>
      if t == "" then Success(None)
      else
        (match ParseInt(t)
         case None => Failure(BadMaxRows(t))
         case Some(n) => Success(Some(n)))
    case MaxRowsNumber(n) => if n == 0 then Success(None) else Success(Some(n))
  }

  lemma MaxRowsExample()
    ensures MaxRows(MaxRowsText("10")) == Success(Some(10))
  {
    assert "10"[..1] == "1" && "1"[..0] == [];
  }

  // ---------------------------------------------------------------------
  // The fetched table and the calculation
  // ---------------------------------------------------------------------

  /** A fetched table: its rows, each with one entry per column. */
  datatype Frame = Frame(columnCount: nat, rows: seq<seq<Option<real>>>)

  predicate WellFormed(f: Frame) {
    forall i :: 0 <= i < |f.rows| ==> |f.rows[i]| == f.columnCount
  }

  /** `DataFrame.dropna()`: the rows without a missing entry, in order. */
  function DropNa(rows: seq<seq<Option<real>>>): (r: seq<seq<Option<real>>>)
    ensures |r| <= |rows|
    ensures forall row :: row in r ==> Complete(row)
  {
    if rows == [] then []
    else (if Complete(rows[0]) then [rows[0]] else []) + DropNa(rows[1..])
  }

  /** The rows kept are exactly the complete ones. */
  lemma {:induction false} DropNaKeepsComplete(rows: seq<seq<Option<real>>>)
    ensures forall row :: row in DropNa(rows) <==> row in rows && Complete(row)
  {
    if rows != [] {
      DropNaKeepsComplete(rows[1..]);
      assert forall row :: row in rows <==> row == rows[0] || row in rows[1..];
    }
  }

  /** Dropping again removes nothing. */
  lemma {:induction false} DropNaIdempotent(rows: seq<seq<Option<real>>>)
    ensures DropNa(DropNa(rows)) == DropNa(rows)
  {
    if rows != [] {
      DropNaIdempotent(rows[1..]);
      DropNaKeepsComplete(rows[1..]);
      var rest := DropNa(rows[1..]);
      assert DropNa(rest) == rest;
      if Complete(rows[0]) {
        var kept := [rows[0]] + rest;
        assert DropNa(rows) == kept;
        assert kept[0] == rows[0] && kept[1..] == rest;
        assert DropNa(kept) == [rows[0]] + DropNa(rest);
      } else {
        assert DropNa(rows) == rest;
      }
    }
  }

  lemma {:induction false} DropNaWellFormed(f: Frame)
    requires WellFormed(f)
    ensures WellFormed(Frame(f.columnCount, DropNa(f.rows)))
  {
    DropNaKeepsComplete(f.rows);
    var d := DropNa(f.rows);
    forall i | 0 <= i < |d|
      ensures |d[i]| == f.columnCount
    {
      assert d[i] in f.rows;
    }
  }

  /** `iloc[:, 0]` */
  function FirstColumn(f: Frame): (r: Result<Column, Error>)
    requires WellFormed(f)
    ensures r.Failure? <==> f.columnCount == 0
    ensures r.Success? ==> |r.value| == |f.rows| && forall i :: 0 <= i < |f.rows| ==> r.value[i] == f.rows[i][0]
  {
    if f.columnCount == 0 then Failure(NoColumns)
    else Success(seq(|f.rows|, i requires 0 <= i < |f.rows| => f.rows[i][0]))
  }

  /** The calculator's table, one kind per indicator. */
  datatype Table =
    | MacdTable(macdRows: seq<Macd.Row>)
    | BollingerBandsTable(bbRows: seq<BollingerBands.Row>)
    | RsiTable(rsiRows: seq<Rsi.Row>)

  /** The result table with its renamed columns. */
  datatype Output = Output(columns: seq<string>, table: Table)

  /** The table after the optional `dropna`. */
  function Prepared(data: Frame, dropNa: bool): (f: Frame)
    requires WellFormed(data)
    ensures WellFormed(f) && f.columnCount == data.columnCount
  {
    if dropNa then DropNaWellFormed(data); Frame(data.columnCount, DropNa(data.rows)) else data
  }

  /** MACD from the three spans in order: construction, then the first column, then the calculation. */
  function RunMacd(v: seq<int>, f: Frame): (r: Result<Output, Error>)
    requires |v| == 3 && WellFormed(f)
    ensures r.Failure? ==> r.error.MacdConfig? || r.error.NoColumns? || r.error.MacdFailed?
    ensures r.Failure? && r.error.MacdConfig? <==> v[0] >= v[1]
    ensures r.Success? ==> r.value.columns == UpperColumns(Macd.Columns) && r.value.table.MacdTable?
  {
    match Macd.NewCalculator(v[0], v[1], v[2])
    case Failure(e) => Failure(MacdConfig(e))
    case Success(calculator) =>
      match FirstColumn(f)
      case Failure(e) => Failure(e)
      case Success(values) =>
        match Macd.Calculate(calculator, values)
        case Failure(e) => Failure(MacdFailed(e))
        case Success(rows) => Success(Output(UpperColumns(Macd.Columns), MacdTable(rows)))
  }

  /** Bollinger Bands from the window size and the multiplier. */
  function RunBollingerBands(v: seq<int>, f: Frame, root: real -> real): (r: Result<Output, Error>)
    requires |v| == 2 && WellFormed(f)
    ensures r.Failure? ==> r.error.NoColumns? || r.error.BollingerBandsFailed?
    ensures r.Success? ==> r.value.columns == UpperColumns(BollingerBands.Columns) && r.value.table.BollingerBandsTable?
  {
    var calculator := BollingerBands.NewCalculator(v[0], v[1]);
    match FirstColumn(f)
    case Failure(e) => Failure(e)
    case Success(values) =>
      match BollingerBands.Calculate(calculator, values, root)
      case Failure(e) => Failure(BollingerBandsFailed(e))
      case Success(rows) => Success(Output(UpperColumns(BollingerBands.Columns), BollingerBandsTable(rows)))
  }

  /** RSI from the window size and the two lines. */
  function RunRsi(v: seq<int>, f: Frame): (r: Result<Output, Error>)
    requires |v| == 3 && WellFormed(f)
    ensures r.Failure? ==> r.error.NoColumns? || r.error.RsiFailed?
    ensures r.Success? ==> r.value.columns == UpperColumns(Rsi.Columns) && r.value.table.RsiTable?
  {
    var calculator := Rsi.NewCalculator(v[0], v[1], v[2]);
    match FirstColumn(f)
    case Failure(e) => Failure(e)
    case Success(values) =>
      match Rsi.Calculate(calculator, values)
      case Failure(e) => Failure(RsiFailed(e))
      case Success(rows) => Success(Output(UpperColumns(Rsi.Columns), RsiTable(rows)))
  }

  /**
   * `calculate_indicator_for_remote_data` after the fetch: drop missing rows
   * if asked, dispatch on the indicator, select its parameters, build the
   * calculator, run it on the first column and upper-case the column names.
   * `root` is the square root the Bollinger Bands need.
   */
  function CalculateIndicator(
    indicator: string, kwargs: map<string, string>, data: Frame, dropNa: bool, root: real -> real): (r: Result<Output, Error>)
    requires WellFormed(data)
    ensures r.Failure? && r.error.InvalidIndicator? ==> r.error.message == "invalid indicator: " + indicator
  {
    var f := Prepared(data, dropNa);
    match ParseIndicator(indicator)
    case Failure(e) => Failure(e)
    case Success(ind) =>
      match SelectParams(ParamKeys(ind), kwargs)
      case Failure(e) => Failure(e)
      case Success(params) =>
        var v := ParamValues(params);
        match ind
        case MacdIndicator => RunMacd(v, f)
        case BollingerBandsIndicator => RunBollingerBands(v, f, root)
        case RsiIndicator => RunRsi(v, f)
  }

  /** The integers of the selected parameters, in order. */
  function ParamValues(params: seq<(string, int)>): (v: seq<int>)
    ensures |v| == |params| && forall i :: 0 <= i < |params| ==> v[i] == params[i].1
  {
    seq(|params|, i requires 0 <= i < |params| => params[i].1)
  }

  /** The integer a selected parameter was given as. */
  function Param(kwargs: map<string, string>, key: string): int
    requires key in kwargs && ParseInt(kwargs[key]).Some?
  {
    ParseInt(kwargs[key]).value
  }

  /** Any name but the three fails with the message naming it. */
  lemma CalculateIndicatorInvalid(
    indicator: string, kwargs: map<string, string>, data: Frame, dropNa: bool, root: real -> real)
    requires WellFormed(data) && indicator != "macd" && indicator != "bb" && indicator != "rsi"
    ensures CalculateIndicator(indicator, kwargs, data, dropNa, root)
      == Failure(InvalidIndicator("invalid indicator: " + indicator))
  {
  }

  /** A missing or non-integer parameter of the chosen indicator fails before any calculation. */
  lemma CalculateIndicatorNeedsParams(
    indicator: string, kwargs: map<string, string>, data: Frame, dropNa: bool, root: real -> real)
    requires WellFormed(data) && ParseIndicator(indicator).Success?
    requires exists k :: k in ParamKeys(ParseIndicator(indicator).value) && (k !in kwargs || ParseInt(kwargs[k]).None?)
    ensures CalculateIndicator(indicator, kwargs, data, dropNa, root).Failure?
    ensures CalculateIndicator(indicator, kwargs, data, dropNa, root).error.MissingParameter?
      || CalculateIndicator(indicator, kwargs, data, dropNa, root).error.BadInteger?
  {
    SelectParamsSucceedsIff(ParamKeys(ParseIndicator(indicator).value), kwargs);
  }

  /**
   * For `macd` the calculator is built from the three spans given and run on
   * the first column of the (optionally cleaned) table; the columns come
   * back upper-cased.
   */
  lemma CalculateIndicatorMacd(
    kwargs: map<string, string>, data: Frame, dropNa: bool, root: real -> real)
    requires WellFormed(data)
    requires CalculateIndicator("macd", kwargs, data, dropNa, root).Success?
    ensures var r := CalculateIndicator("macd", kwargs, data, dropNa, root).value;
      var f := Prepared(data, dropNa);
      "fast_ema_span" in kwargs && "slow_ema_span" in kwargs && "macd_ema_span" in kwargs
      && ParseInt(kwargs["fast_ema_span"]).Some? && ParseInt(kwargs["slow_ema_span"]).Some?
      && ParseInt(kwargs["macd_ema_span"]).Some?
      && FirstColumn(f).Success?
      && r.columns == ["VALUE", "MACD", "MACD_EMA", "SIGNAL"]
      && Macd.Calculate(
           Macd.Calculator(Param(kwargs, "fast_ema_span"), Param(kwargs, "slow_ema_span"),
                           Param(kwargs, "macd_ema_span"), 0),
           FirstColumn(f).value)
         == Success(r.table.macdRows)
  {
    SelectParamsValues(ParamKeys(MacdIndicator), kwargs);
    UpperColumnsOfCalculators();
  }

  /** For `bb`: window size and multiplier as given, default rolling options. */
  lemma CalculateIndicatorBollingerBands(
    kwargs: map<string, string>, data: Frame, dropNa: bool, root: real -> real)
    requires WellFormed(data)
    requires CalculateIndicator("bb", kwargs, data, dropNa, root).Success?
    ensures var r := CalculateIndicator("bb", kwargs, data, dropNa, root).value;
      var f := Prepared(data, dropNa);
      "window_size" in kwargs && "sd_multiplier" in kwargs
      && ParseInt(kwargs["window_size"]).Some? && ParseInt(kwargs["sd_multiplier"]).Some?
      && FirstColumn(f).Success?
      && r.columns == ["VALUE", "MA", "SD", "LOWER_BB", "UPPER_BB", "SIGNAL"]
      && BollingerBands.Calculate(
           BollingerBands.Calculator(Param(kwargs, "sd_multiplier"),
                                     RollingConfig(Param(kwargs, "window_size"), None, None)),
           FirstColumn(f).value, root)
         == Success(r.table.bbRows)
  {
    SelectParamsValues(ParamKeys(BollingerBandsIndicator), kwargs);
    UpperColumnsOfCalculators();
  }

  /** For `rsi`: window size and the two lines as given, default rolling options. */
  lemma CalculateIndicatorRsi(
    kwargs: map<string, string>, data: Frame, dropNa: bool, root: real -> real)
    requires WellFormed(data)
    requires CalculateIndicator("rsi", kwargs, data, dropNa, root).Success?
    ensures var r := CalculateIndicator("rsi", kwargs, data, dropNa, root).value;
      var f := Prepared(data, dropNa);
      "window_size" in kwargs && "upper_line" in kwargs && "lower_line" in kwargs
      && ParseInt(kwargs["window_size"]).Some? && ParseInt(kwargs["upper_line"]).Some?
      && ParseInt(kwargs["lower_line"]).Some?
      && FirstColumn(f).Success?
      && r.columns == ["VALUE", "RS", "RSI", "SIGNAL"]
      && Rsi.Calculate(
           Rsi.Calculator(Param(kwargs, "upper_line"), Param(kwargs, "lower_line"),
                          RollingConfig(Param(kwargs, "window_size"), None, None)),
           FirstColumn(f).value)
         == Success(r.table.rsiRows)
  {
    SelectParamsValues(ParamKeys(RsiIndicator), kwargs);
    UpperColumnsOfCalculators();
  }

  /** The MACD calculator refuses a fast span that is not below the slow span, before any calculation. */
  lemma CalculateIndicatorMacdSpans(
    kwargs: map<string, string>, data: Frame, dropNa: bool, root: real -> real)
    requires WellFormed(data)
    requires forall k :: k in ParamKeys(MacdIndicator) ==> k in kwargs && ParseInt(kwargs[k]).Some?
    requires Param(kwargs, "fast_ema_span") >= Param(kwargs, "slow_ema_span")
    ensures CalculateIndicator("macd", kwargs, data, dropNa, root)
      == Failure(MacdConfig(Macd.FastSpanNotBelowSlowSpan))
  {
    SelectParamsSucceedsIff(ParamKeys(MacdIndicator), kwargs);
    SelectParamsValues(ParamKeys(MacdIndicator), kwargs);
  }

  /** A table without columns has no first column, whatever the indicator. */
  lemma CalculateIndicatorNoColumns(
    indicator: string, kwargs: map<string, string>, data: Frame, dropNa: bool, root: real -> real)
    requires WellFormed(data) && data.columnCount == 0
    requires ParseIndicator(indicator).Success?
    requires forall k :: k in ParamKeys(ParseIndicator(indicator).value) ==> k in kwargs && ParseInt(kwargs[k]).Some?
    requires indicator == "macd" ==> Param(kwargs, "fast_ema_span") < Param(kwargs, "slow_ema_span")
    ensures CalculateIndicator(indicator, kwargs, data, dropNa, root) == Failure(NoColumns)
  {
    SelectParamsSucceedsIff(ParamKeys(ParseIndicator(indicator).value), kwargs);
  }
}

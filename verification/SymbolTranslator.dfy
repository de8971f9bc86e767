/**
 * Broker symbol strings, printed and parsed, and the expiry registry that decides between the weekly and the
 * monthly form and resolves the monthly one back to a date.
 */
module SymbolTranslator {
  import opened Calendar
  import opened Wrappers

  datatype InternalSymbol = InternalSymbol(underlying: string, strike: real, optionType: string, expiry: Date)

  /** A parse: no match (None), an exception, or a symbol. */
  datatype Parsed = NoMatch | Raises | Symbol(sym: InternalSymbol)

  type Registry = map<string, seq<Date>>

  const MCX := {"CRUDEOIL", "CRUDEOILM", "NATURALGAS", "GOLD", "SILVER"}

  // ---------------------------------------------------------------- characters and numbers

  predicate IsDigit(c: char) { '0' <= c <= '9' }

  predicate IsUpper(c: char) { 'A' <= c <= 'Z' }

  predicate Digits(s: string) { forall i :: 0 <= i < |s| ==> IsDigit(s[i]) }

  predicate Uppers(s: string) { forall i :: 0 <= i < |s| ==> IsUpper(s[i]) }

  function DigitChar(d: int): (c: char)
    requires 0 <= d < 10
    ensures IsDigit(c) && DigitValue(c) == d
  {
    ('0' as int + d) as char
  }

  function DigitValue(c: char): int { c as int - '0' as int }

  function ToNat(s: string): (n: int)
    requires Digits(s)
    ensures n >= 0
  {
    if s == [] then 0 else 10 * ToNat(s[..|s| - 1]) + DigitValue(s[|s| - 1])
  }

  function Show(n: nat): (s: string)
    ensures s != [] && Digits(s) && ToNat(s) == n
  {
    if n < 10 then [DigitChar(n)] else Show(n / 10) + [DigitChar(n % 10)]
  }

  /** strftime's two-digit fields. */
  function Two(n: int): (s: string)
    ensures |s| == 2 && Digits(s) && ToNat(s) == n % 100
  {
    var s := [DigitChar(n % 100 / 10), DigitChar(n % 10)];
    assert s[..1] == [DigitChar(n % 100 / 10)] && s[..1][..0] == [];
    assert ToNat(s[..1]) == n % 100 / 10;
    s
  }

  function Truncate(x: real): int { if x >= 0.0 then x.Floor else -(-x).Floor }

  function ShowInt(n: int): string { if n >= 0 then Show(n) else "-" + Show(-n) }

  // ---------------------------------------------------------------- the common frame of all symbols

  /** letters, k characters starting with a digit, digits, CE or PE */
  datatype Frame = Frame(underlying: string, mid: string, strike: string, optionType: string)

  /** `(CE|PE)$`: the option type, which one newline may follow. */
  predicate Ends(tail: string, optionType: string) {
    (optionType == "CE" || optionType == "PE") && (tail == optionType || tail == optionType + "\n")
  }

  /** `(\d+)(CE|PE)$` */
  ghost predicate FramedStrike(s: string, strike: string, optionType: string) {
    strike != [] && Digits(strike) && exists tail :: Ends(tail, optionType) && s == strike + tail
  }

  /** How a regular expression `^([A-Z]+)(...)(\d+)(CE|PE)$` may cut a string: stated as a concatenation. */
  ghost predicate Framed(s: string, k: nat, f: Frame)
    requires k > 0
  {
    f.underlying != [] && Uppers(f.underlying)
    && |f.mid| == k && IsDigit(f.mid[0])
    && exists rest :: FramedStrike(rest, f.strike, f.optionType) && s == f.underlying + (f.mid + rest)
  }

  function UpperRun(s: string): (n: nat)
    ensures n <= |s| && Uppers(s[..n]) && (n < |s| ==> !IsUpper(s[n]))
  {
    if s == [] || !IsUpper(s[0]) then 0
    else
      var n := UpperRun(s[1..]);
      assert forall i :: 1 <= i < n + 1 ==> s[i] == s[1..][..n][i - 1];
      n + 1
  }

  function DigitRun(s: string): (n: nat)
    ensures n <= |s| && Digits(s[..n]) && (n < |s| ==> !IsDigit(s[n]))
  {
    if s == [] || !IsDigit(s[0]) then 0
    else
      var n := DigitRun(s[1..]);
      assert forall i :: 1 <= i < n + 1 ==> s[i] == s[1..][..n][i - 1];
      n + 1
  }

  function CutStrike(s: string): Option<(string, string)> {
    var d := DigitRun(s);
    if d == 0 then None
    else if Ends(s[d..], "CE") then Some((s[..d], "CE"))
    else if Ends(s[d..], "PE") then Some((s[..d], "PE"))
    else None
  }

  /** Matching by scanning: each run of letters or digits has only one possible end. */
  function Cut(s: string, k: nat): Option<Frame>
    requires k > 0
  {
    var n := UpperRun(s);
    if n == 0 || |s| < n + k || !IsDigit(s[n]) then None
    else
      match CutStrike(s[n + k..])
      case None => None
      case Some((strike, optionType)) => Some(Frame(s[..n], s[n..n + k], strike, optionType))
  }

  lemma {:induction false} UpperRunOf(u: string, rest: string)
    requires Uppers(u) && rest != [] && !IsUpper(rest[0])
    ensures UpperRun(u + rest) == |u|
  {
    if u == [] {
      assert u + rest == rest;
    } else {
      UpperRunOf(u[1..], rest);
      assert (u + rest)[1..] == u[1..] + rest;
    }
  }

  lemma {:induction false} DigitRunOf(u: string, rest: string)
    requires Digits(u) && rest != [] && !IsDigit(rest[0])
    ensures DigitRun(u + rest) == |u|
  {
    if u == [] {
      assert u + rest == rest;
    } else {
      DigitRunOf(u[1..], rest);
      assert (u + rest)[1..] == u[1..] + rest;
    }
  }

  lemma StrikeExact(s: string, strike: string, optionType: string)
    ensures CutStrike(s) == Some((strike, optionType)) <==> FramedStrike(s, strike, optionType)
  {
    if FramedStrike(s, strike, optionType) {
      var tail :| Ends(tail, optionType) && s == strike + tail;
      DigitRunOf(strike, tail);
      assert s[..|strike|] == strike && s[|strike|..] == tail;
    }
    if CutStrike(s) == Some((strike, optionType)) {
      var d := DigitRun(s);
      assert s == s[..d] + s[d..];
    }
  }

  lemma CutFramed(s: string, k: nat, f: Frame)
    requires k > 0 && Framed(s, k, f)
    ensures Cut(s, k) == Some(f)
  {
    hide Digits, Uppers, FramedStrike, CutStrike;
    var rest :| FramedStrike(rest, f.strike, f.optionType) && s == f.underlying + (f.mid + rest);
    assert UpperRun(s) == |f.underlying| by { UpperRunOf(f.underlying, f.mid + rest); }
    assert s[..|f.underlying|] == f.underlying && s[|f.underlying|] == f.mid[0];
    assert s[|f.underlying| + k..] == rest;
    assert s[|f.underlying|..|f.underlying| + k] == f.mid;
    StrikeExact(rest, f.strike, f.optionType);
  }

  /** The scanner accepts a string with these groups exactly when the string is their concatenation. */
  lemma CutExact(s: string, k: nat, f: Frame)
    requires k > 0
    ensures Cut(s, k) == Some(f) <==> Framed(s, k, f)
  {
    hide Cut, Framed;
    if Framed(s, k, f) {
      CutFramed(s, k, f);
    }
    if Cut(s, k) == Some(f) {
      CutSound(s, k, f);
    }
  }

  lemma CutSound(s: string, k: nat, f: Frame)
    requires k > 0 && Cut(s, k) == Some(f)
    ensures Framed(s, k, f)
  {
    hide CutStrike, FramedStrike, Digits, Uppers, UpperRun;
    var n := UpperRun(s);
    StrikeExact(s[n + k..], f.strike, f.optionType);
    assert f.underlying == s[..n] && f.mid == s[n..n + k] && f.mid[0] == s[n];
    assert s == s[..n] + (s[n..n + k] + s[n + k..]);
    assert f.underlying != [];
  }

  // ---------------------------------------------------------------- the registry

  function Expiries(reg: Registry, underlying: string): seq<Date> {
    if underlying in reg then reg[underlying] else []
  }

  function IndexOf<T(==)>(xs: seq<T>, x: T): (n: nat)
    ensures n <= |xs| && x !in xs[..n] && (n < |xs| ==> xs[n] == x)
    ensures n < |xs| <==> x in xs
  {
    if xs == [] || xs[0] == x then 0
    else
      var n := IndexOf(xs[1..], x);
      assert xs[..n + 1] == [xs[0]] + xs[1..][..n];
      n + 1
  }

  /** Monthly when the next listed expiry falls in another calendar month, or there is none; for an unlisted
      expiry, when a week later is another month. */
  predicate IsMonthly(reg: Registry, underlying: string, expiry: Date) {
    var all := Expiries(reg, underlying);
    var i := IndexOf(all, expiry);
    if i < |all| then i + 1 == |all| || all[i + 1].month != expiry.month
    else expiry.day + 7 > DaysIn(expiry.year, expiry.month)
  }

  function InMonth(ds: seq<Date>, y: int, m: int): (r: seq<Date>)
    ensures forall d :: d in r <==> d in ds && d.year == y && d.month == m
  {
    if ds == [] then [] else (if ds[0].year == y && ds[0].month == m then [ds[0]] else []) + InMonth(ds[1..], y, m)
  }

  function Latest(ds: seq<Date>): (d: Date)
    requires ds != []
    ensures d in ds && forall e :: e in ds ==> !Earlier(d, e)
  {
    if |ds| == 1 then ds[0]
    else
      var d := Latest(ds[1..]);
      assert ds == [ds[0]] + ds[1..];
      if Earlier(d, ds[0]) then ds[0] else d
  }

  /** A monthly symbol stands for the latest listed expiry of its month, else for the last Thursday. */
  function Resolve(reg: Registry, underlying: string, y: int, m: int): Date
    requires 1 <= m <= 12
  {
    var listed := InMonth(Expiries(reg, underlying), y, m);
    if listed != [] then Latest(listed) else LastThursday(y, m)
  }

  /** What a month resolves to: its latest listed expiry, and its last Thursday if none is listed. */
  lemma ResolveMeans(reg: Registry, underlying: string, y: int, m: int)
    requires 1 <= m <= 12
    ensures var listed := if underlying in reg then reg[underlying] else [];
            var d := Resolve(reg, underlying, y, m);
            d.year == y && d.month == m
            && (d in listed || (ValidDate(d) && Weekday(d) == 3 && d.day + 7 > DaysIn(y, m)))
            && forall e :: e in listed && e.year == y && e.month == m ==> d in listed && !Earlier(d, e)
  {
  }

  /** An expiry printed as monthly is the one its month resolves to. */
  lemma MonthlyResolves(reg: Registry, underlying: string, d: Date)
    requires Sorted(Expiries(reg, underlying)) && d in Expiries(reg, underlying) && ValidDate(d)
    requires IsMonthly(reg, underlying, d)
    ensures Resolve(reg, underlying, d.year, d.month) == d
  {
    var all := Expiries(reg, underlying);
    var i := IndexOf(all, d);
    var e := Latest(InMonth(all, d.year, d.month));
    var j :| 0 <= j < |all| && all[j] == e;
    assert !Earlier(e, d);
    assert j <= i || i + 1 < |all|;
  }

  // ---------------------------------------------------------------- Fyers

  function MonthName(m: int): (s: string)
    requires 1 <= m <= 12
    ensures |s| == 3 && Uppers(s)
  {
    match m
    case 1 => "JAN" case 2 => "FEB" case 3 => "MAR" case 4 => "APR" case 5 => "MAY" case 6 => "JUN"
    case 7 => "JUL" case 8 => "AUG" case 9 => "SEP" case 10 => "OCT" case 11 => "NOV" case _ => "DEC"
  }

  predicate Spells(s: string, a: char, b: char, c: char) { |s| == 3 && s[0] == a && s[1] == b && s[2] == c }

  /** The month of a three-letter name, 0 for anything else. */
  function MonthNumber(s: string): (m: int)
    ensures 0 <= m <= 12 && (m > 0 ==> Uppers(s) && |s| == 3)
  {
    if Spells(s, 'J', 'A', 'N') then 1 else if Spells(s, 'F', 'E', 'B') then 2
    else if Spells(s, 'M', 'A', 'R') then 3 else if Spells(s, 'A', 'P', 'R') then 4
    else if Spells(s, 'M', 'A', 'Y') then 5 else if Spells(s, 'J', 'U', 'N') then 6
    else if Spells(s, 'J', 'U', 'L') then 7 else if Spells(s, 'A', 'U', 'G') then 8
    else if Spells(s, 'S', 'E', 'P') then 9 else if Spells(s, 'O', 'C', 'T') then 10
    else if Spells(s, 'N', 'O', 'V') then 11 else if Spells(s, 'D', 'E', 'C') then 12 else 0
  }

  function CodeChar(m: int): (c: char)
    requires 1 <= m <= 12
    ensures CodeNumber(c) == m && (IsDigit(c) || c in "OND")
  {
    if m < 10 then DigitChar(m) else if m == 10 then 'O' else if m == 11 then 'N' else 'D'
  }

  /** The month of a weekly code, 0 for '0' and anything else. */
  function CodeNumber(c: char): (m: int)
    ensures 0 <= m <= 12 || !(IsDigit(c) || c in "OND")
  {
    if IsDigit(c) then DigitValue(c) else if c == 'O' then 10 else if c == 'N' then 11 else if c == 'D' then 12 else 0
  }

  lemma MonthNameNumber(m: int)
    requires 1 <= m <= 12
    ensures MonthNumber(MonthName(m)) == m
  {
  }

  predicate MonthlyMid(mid: string) {
    |mid| == 5 && Digits(mid[..2]) && MonthNumber(mid[2..]) > 0
  }

  predicate WeeklyMid(mid: string) {
    |mid| == 5 && Digits(mid[..2]) && (IsDigit(mid[2]) || mid[2] in "OND") && Digits(mid[3..])
  }

  function Exchange(underlying: string): string { if underlying == "SENSEX" then "BSE:" else "NSE:" }

  function FyersMid(d: Date, monthly: bool): string
    requires ValidDate(d)
  {
    Two(d.year) + if monthly then MonthName(d.month) else [CodeChar(d.month)] + Two(d.day)
  }

  function ToFyers(sym: InternalSymbol, monthly: bool): string
    requires ValidDate(sym.expiry)
  {
    Exchange(sym.underlying)
    + (sym.underlying + (FyersMid(sym.expiry, monthly) + (ShowInt(Truncate(sym.strike)) + sym.optionType)))
  }

  function DateOr(y: int, m: int, d: int, u: string, strike: string, optionType: string): Parsed
    requires Digits(strike)
  {
    if ValidDate(Date(y, m, d)) then Symbol(InternalSymbol(u, ToNat(strike) as real, optionType, Date(y, m, d)))
    else Raises
  }

  /** What the groups of a match mean. */
  function ReadFyers(reg: Registry, f: Frame): Parsed
    requires Digits(f.strike)
  {
    if MonthlyMid(f.mid) then
      var y, m := 2000 + ToNat(f.mid[..2]), MonthNumber(f.mid[2..]);
      Symbol(InternalSymbol(f.underlying, ToNat(f.strike) as real, f.optionType, Resolve(reg, f.underlying, y, m)))
    else if WeeklyMid(f.mid) then
      var m := CodeNumber(f.mid[2]);
      if m == 0 then NoMatch
      else DateOr(2000 + ToNat(f.mid[..2]), m, ToNat(f.mid[3..]), f.underlying, f.strike, f.optionType)
    else NoMatch
  }

  function FromFyers(reg: Registry, raw: string): Parsed {
    if |raw| < 4 || !(raw[..4] == "NSE:" || raw[..4] == "BSE:") then NoMatch
    else
      match Cut(raw[4..], 5)
      case None => NoMatch
      case Some(f) => CutExact(raw[4..], 5, f); ReadFyers(reg, f)
  }

  /** An option contract that can be written as a symbol. */
  predicate Contract(sym: InternalSymbol) {
    sym.underlying != [] && Uppers(sym.underlying) && ValidDate(sym.expiry) && 2000 <= sym.expiry.year <= 2099
    && sym.strike >= 0.0 && sym.strike == sym.strike.Floor as real
    && (sym.optionType == "CE" || sym.optionType == "PE")
  }

  lemma PrintedCuts(sym: InternalSymbol, mid: string)
    requires Contract(sym) && mid != [] && IsDigit(mid[0])
    ensures Cut(sym.underlying + (mid + (ShowInt(Truncate(sym.strike)) + sym.optionType)), |mid|)
         == Some(Frame(sym.underlying, mid, Show(sym.strike.Floor), sym.optionType))
  {
    var strike := Show(sym.strike.Floor);
    var f := Frame(sym.underlying, mid, strike, sym.optionType);
    assert Ends(sym.optionType, sym.optionType);
    assert FramedStrike(strike + sym.optionType, strike, sym.optionType);
    hide FramedStrike, Uppers, Show, Cut;
    var s := sym.underlying + (mid + (strike + sym.optionType));
    assert Framed(s, |mid|, f);
    CutFramed(s, |mid|, f);
  }

  lemma FyersMids(d: Date)
    requires ValidDate(d)
    ensures var w := FyersMid(d, false);
            |w| == 5 && IsDigit(w[0]) && WeeklyMid(w) && !MonthlyMid(w)
            && ToNat(w[..2]) == d.year % 100 && CodeNumber(w[2]) == d.month && ToNat(w[3..]) == d.day
    ensures var m := FyersMid(d, true);
            |m| == 5 && IsDigit(m[0]) && MonthlyMid(m) && !WeeklyMid(m)
            && ToNat(m[..2]) == d.year % 100 && MonthNumber(m[2..]) == d.month
  {
    hide Two, ToNat, MonthNumber, MonthName;
    MonthNameNumber(d.month);
    var w, m := FyersMid(d, false), FyersMid(d, true);
    assert w[..2] == Two(d.year) && w[3..] == Two(d.day) && w[2] == CodeChar(d.month);
    assert m[..2] == Two(d.year) && m[2..] == MonthName(d.month);
    assert m[3..][0] == m[3] == m[2..][1] && IsUpper(m[2..][1]);
    assert w[2..][1] == w[3] == w[3..][0] && IsDigit(w[3..][0]);
  }

  lemma FyersRead(reg: Registry, sym: InternalSymbol, monthly: bool)
    requires Contract(sym)
    ensures ReadFyers(reg, Frame(sym.underlying, FyersMid(sym.expiry, monthly), Show(sym.strike.Floor), sym.optionType))
         == Symbol(if monthly then sym.(expiry := Resolve(reg, sym.underlying, sym.expiry.year, sym.expiry.month))
                   else sym)
  {
    FyersMids(sym.expiry);
    hide Resolve, MonthlyMid, WeeklyMid, Show, FyersMid, MonthNumber, CodeNumber;
    assert ToNat(Show(sym.strike.Floor)) as real == sym.strike;
    hide ToNat;
    assert 2000 + sym.expiry.year % 100 == sym.expiry.year;
  }

  /** The parse of a printed symbol, in either form, for every contract and every registry: everything comes back
      but the date of a monthly symbol, which becomes whatever its month resolves to. */
  lemma FyersParse(reg: Registry, sym: InternalSymbol, monthly: bool)
    requires Contract(sym)
    ensures FromFyers(reg, ToFyers(sym, monthly))
         == Symbol(if monthly then sym.(expiry := Resolve(reg, sym.underlying, sym.expiry.year, sym.expiry.month))
                   else sym)
  {
    var mid := FyersMid(sym.expiry, monthly);
    assert |mid| == 5 && IsDigit(mid[0]) by { FyersMids(sym.expiry); }
    PrintedCuts(sym, mid);
    FyersRead(reg, sym, monthly);
    hide Resolve, ReadFyers, Cut, Show, FyersMid;
    var raw := ToFyers(sym, monthly);
    assert raw[..4] == Exchange(sym.underlying);
    assert raw[4..] == sym.underlying + (mid + (ShowInt(Truncate(sym.strike)) + sym.optionType));
  }

  /** A weekly and a monthly symbol are never the same string, whatever the contracts. */
  lemma FormsDisjoint(weekly: InternalSymbol, monthly: InternalSymbol)
    requires Contract(weekly) && Contract(monthly)
    ensures ToFyers(weekly, false) != ToFyers(monthly, true)
  {
    var w, m := FyersMid(weekly.expiry, false), FyersMid(monthly.expiry, true);
    FyersMids(weekly.expiry);
    FyersMids(monthly.expiry);
    PrintedCuts(weekly, w);
    PrintedCuts(monthly, m);
    hide Cut, FyersMid, MonthlyMid, WeeklyMid, Show;
    assert ToFyers(weekly, false)[4..]
        == weekly.underlying + (w + (ShowInt(Truncate(weekly.strike)) + weekly.optionType));
    assert ToFyers(monthly, true)[4..]
        == monthly.underlying + (m + (ShowInt(Truncate(monthly.strike)) + monthly.optionType));
  }

  function UpChar(c: char): char { if 'a' <= c <= 'z' then (c as int - 32) as char else c }

  function Upper(s: string): (r: string)
    ensures |r| == |s| && (Uppers(s) ==> r == s)
  {
    seq(|s|, i requires 0 <= i < |s| => UpChar(s[i]))
  }

  datatype Provider = FYERS | ANGELONE | ZERODHA

  /** `get_broker_symbol` for the providers whose symbols are built here. */
  function GetBrokerSymbol(reg: Registry, underlying: string, expiry: Date, strike: int, optionType: string,
                           p: Provider): string
    requires ValidDate(expiry)
  {
    var sym := InternalSymbol(underlying, strike as real, optionType, expiry);
    if Upper(underlying) in MCX then
      (if p.FYERS? then "MCX:" else "") + Upper(underlying) + Two(expiry.year) + MonthName(expiry.month)
        + ShowInt(strike) + optionType
    else
      match p
      case FYERS => ToFyers(sym, IsMonthly(reg, underlying, expiry))
      case ANGELONE => ToAngel(sym)
      case ZERODHA => ToFyers(sym, IsMonthly(reg, underlying, expiry))[4..]
  }

  lemma PlaceOf(all: seq<Date>, d: Date, i: nat)
    requires Sorted(all) && i < |all| && all[i] == d
    ensures IndexOf(all, d) == i
  {
    var n := IndexOf(all, d);
    assert n < |all|;
    assert n < i ==> Earlier(all[n], all[i]);
  }

  /** Which form a listed expiry is printed in: the monthly one if and only if no later expiry of its month is listed,
      except that a next expiry listed for the same month of a later year makes it weekly. */
  lemma PrintedMonthlyIff(reg: Registry, underlying: string, i: nat, strike: nat, optionType: string)
    requires underlying in reg && Sorted(reg[underlying]) && i < |reg[underlying]| && underlying !in MCX
    requires Contract(InternalSymbol(underlying, strike as real, optionType, reg[underlying][i]))
    ensures var all := reg[underlying];
            var d := all[i];
            var sym := InternalSymbol(underlying, strike as real, optionType, d);
            var printed := GetBrokerSymbol(reg, underlying, d, strike, optionType, FYERS);
            var last := forall e :: e in all && Earlier(d, e) ==> e.year != d.year || e.month != d.month;
            var skipped := i + 1 < |all| && all[i + 1].month == d.month && all[i + 1].year > d.year;
            (printed == ToFyers(sym, true) <==> last && !skipped)
            && (printed == ToFyers(sym, false) <==> !last || skipped)
  {
    var all := reg[underlying];
    var d := all[i];
    var sym := InternalSymbol(underlying, strike as real, optionType, d);
    PlaceOf(all, d, i);
    FormsDisjoint(sym, sym);
    LastOfMonth(all, i);
    hide ToFyers, IndexOf;
    assert Upper(underlying) == underlying;
  }

  /** In a sorted list a later date of the same month exists exactly if the next one is of that month. */
  lemma LastOfMonth(all: seq<Date>, i: nat)
    requires Sorted(all) && i < |all|
    ensures var d := all[i];
            (exists e :: e in all && Earlier(d, e) && e.year == d.year && e.month == d.month)
            <==> i + 1 < |all| && all[i + 1].year == d.year && all[i + 1].month == d.month
    ensures i + 1 < |all| ==> all[i + 1].year >= all[i].year
  {
    var d := all[i];
    if i + 1 < |all| {
      assert Earlier(all[i], all[i + 1]) && all[i + 1] in all;
    }
    if e :| e in all && Earlier(d, e) && e.year == d.year && e.month == d.month {
      var j :| 0 <= j < |all| && all[j] == e;
      assert j < i ==> Earlier(e, d);
      assert j > i;
      assert j > i + 1 ==> Earlier(all[i + 1], e);
    }
  }

  /** An unlisted expiry is printed monthly if and only if the same weekday a week later is in another month. */
  lemma UnlistedForm(reg: Registry, underlying: string, d: Date, strike: nat, optionType: string)
    requires d !in Expiries(reg, underlying) && underlying !in MCX
    requires Contract(InternalSymbol(underlying, strike as real, optionType, d))
    ensures GetBrokerSymbol(reg, underlying, d, strike, optionType, FYERS)
              == ToFyers(InternalSymbol(underlying, strike as real, optionType, d), true)
            <==> d.day + 7 > DaysIn(d.year, d.month)
  {
    var sym := InternalSymbol(underlying, strike as real, optionType, d);
    FormsDisjoint(sym, sym);
    hide ToFyers, IndexOf;
    assert Upper(underlying) == underlying;
  }

  // ---------------------------------------------------------------- the letters of it

  /** Decimal digits: '0' to '9', most significant first, without a leading zero. */
  lemma Decimal(n: nat, d: nat)
    requires d < 10
    ensures Show(d) == ["0123456789"[d]]
    ensures n > 0 ==> Show(10 * n + d) == Show(n) + ["0123456789"[d]]
    ensures Two(10 * n + d) == ["0123456789"[n % 10], "0123456789"[d]]
  {
    DigitIs(d);
    DigitIs(n % 10);
    TwoIs(10 * n + d);
    Tens(n, d);
    hide Two, DigitChar;
  }

  lemma Tens(n: int, d: int)
    requires 0 <= d < 10
    ensures (10 * n + d) / 10 == n && (10 * n + d) % 10 == d && (10 * n + d) % 100 / 10 == n % 10
  {
    var a, b := n / 10, n % 10;
    assert 10 * n + d == 100 * a + (10 * b + d);
    assert (10 * n + d) % 100 == 10 * b + d;
  }

  lemma TwoIs(n: nat)
    ensures Two(n) == [DigitChar(n % 100 / 10), DigitChar(n % 10)]
  {
  }

  lemma DigitIs(d: nat)
    requires d < 10
    ensures DigitChar(d) == "0123456789"[d]
  {
  }

  /** The classes `[A-Z]` and `\d`, over the basic characters. */
  lemma Classes(c: char)
    ensures IsUpper(c) <==> c in "ABCDEFGHIJKLMNOPQRSTUVWXYZ"
    ensures IsDigit(c) <==> c in "0123456789"
  {
    UpperAt(c);
    if '0' <= c <= '9' {
      assert "0123456789"[c as int - 48] == c;
    }
  }

  lemma UpperAt(c: char)
    ensures 'A' <= c <= 'Z' ==> "ABCDEFGHIJKLMNOPQRSTUVWXYZ"[c as int - 65] == c
  {
  }

  /** Upper case, letter by letter; everything else stays. */
  lemma UpperLetters(c: char)
    ensures 'a' <= c <= 'z' ==> UpChar(c) == "ABCDEFGHIJKLMNOPQRSTUVWXYZ"[c as int - 97]
    ensures c !in "abcdefghijklmnopqrstuvwxyz" ==> UpChar(c) == c
  {
    if 'a' <= c <= 'z' {
      UpperAt((c as int - 32) as char);
      LowerAt(c);
    }
  }

  lemma LowerAt(c: char)
    ensures 'a' <= c <= 'z' ==> "abcdefghijklmnopqrstuvwxyz"[c as int - 97] == c
  {
  }

  /** `int` cuts towards zero. */
  lemma TruncateMeans(x: real)
    ensures x >= 0.0 ==> Truncate(x) as real <= x < Truncate(x) as real + 1.0 && Truncate(x) >= 0
    ensures x <= 0.0 ==> Truncate(x) as real - 1.0 < x <= Truncate(x) as real && Truncate(x) <= 0
  {
  }

  // ---------------------------------------------------------------- every string, not only printed ones

  const NAMES := ["JAN", "FEB", "MAR", "APR", "MAY", "JUN", "JUL", "AUG", "SEP", "OCT", "NOV", "DEC"]
  const CODES := "123456789OND"

  predicate IsName(s: string, m: int) { 1 <= m <= 12 && s == NAMES[m - 1] }

  /** Two digits and the name of month m. */
  predicate NamesMonth(mid: string, m: int) {
    |mid| == 5 && Digits(mid[..2]) && IsName(mid[2..], m)
  }

  /** Two digits, the code of month m, two digits. */
  predicate CodesMonth(mid: string, m: int) {
    1 <= m <= 12 && |mid| == 5 && Digits(mid[..2]) && mid[2] == CODES[m - 1] && Digits(mid[3..])
  }

  /** What becomes of any string: with one of the two prefixes, cut as the expressions say, and a month by name or by
      code, it is a symbol (or an impossible date raises); otherwise it is no match. */
  lemma FyersReads(reg: Registry, raw: string, f: Frame)
    requires |raw| >= 4 && (raw[..4] == "NSE:" || raw[..4] == "BSE:") && Framed(raw[4..], 5, f)
    ensures Digits(f.strike) && (f.optionType == "CE" || f.optionType == "PE")
    ensures forall m :: NamesMonth(f.mid, m) ==>
              FromFyers(reg, raw)
                == Symbol(InternalSymbol(f.underlying, ToNat(f.strike) as real, f.optionType,
                                         Resolve(reg, f.underlying, 2000 + ToNat(f.mid[..2]), m)))
    ensures forall m :: CodesMonth(f.mid, m) ==>
              var d := Date(2000 + ToNat(f.mid[..2]), m, ToNat(f.mid[3..]));
              FromFyers(reg, raw)
                == if ValidDate(d) then Symbol(InternalSymbol(f.underlying, ToNat(f.strike) as real, f.optionType, d))
                   else Raises
    ensures (forall m :: !NamesMonth(f.mid, m) && !CodesMonth(f.mid, m)) ==> FromFyers(reg, raw) == NoMatch
  {
    hide *;
    CutFramed(raw[4..], 5, f);
    FramedParts(raw[4..], 5, f);
    FrameReads(reg, f);
    FromFyersIs(reg, raw, f);
  }

  lemma FromFyersIs(reg: Registry, raw: string, f: Frame)
    requires |raw| >= 4 && (raw[..4] == "NSE:" || raw[..4] == "BSE:") && Cut(raw[4..], 5) == Some(f) && Digits(f.strike)
    ensures FromFyers(reg, raw) == ReadFyers(reg, f)
  {
    hide Cut, ReadFyers, Digits;
  }

  lemma FramedParts(s: string, k: nat, f: Frame)
    requires k > 0 && Framed(s, k, f)
    ensures |f.mid| == k && Digits(f.strike) && (f.optionType == "CE" || f.optionType == "PE")
  {
  }

  lemma FrameReads(reg: Registry, f: Frame)
    requires |f.mid| == 5 && Digits(f.strike)
    ensures forall m :: NamesMonth(f.mid, m) ==>
              ReadFyers(reg, f) == Symbol(InternalSymbol(f.underlying, ToNat(f.strike) as real, f.optionType,
                                                         Resolve(reg, f.underlying, 2000 + ToNat(f.mid[..2]), m)))
    ensures forall m :: CodesMonth(f.mid, m) ==>
              var d := Date(2000 + ToNat(f.mid[..2]), m, ToNat(f.mid[3..]));
              ReadFyers(reg, f)
                == if ValidDate(d) then Symbol(InternalSymbol(f.underlying, ToNat(f.strike) as real, f.optionType, d))
                   else Raises
    ensures (forall m :: !NamesMonth(f.mid, m) && !CodesMonth(f.mid, m)) ==> ReadFyers(reg, f) == NoMatch
  {
    MidMonths(f.mid);
    hide Resolve, ToNat, MonthNumber, CodeNumber, Digits, IsName, ValidDate;
  }

  lemma FyersUnread(reg: Registry, raw: string)
    requires |raw| < 4 || !(raw[..4] == "NSE:" || raw[..4] == "BSE:") || forall f :: !Framed(raw[4..], 5, f)
    ensures FromFyers(reg, raw) == NoMatch
  {
    hide Cut, Framed, ReadFyers;
    if |raw| >= 4 && Cut(raw[4..], 5).Some? {
      CutExact(raw[4..], 5, Cut(raw[4..], 5).value);
    }
  }

  /** The same for the second provider: day, month name and year, in that order; a name that is none raises. */
  lemma AngelReads(raw: string, f: Frame)
    requires Framed(raw, 7, f)
    ensures Digits(f.strike) && |f.mid| == 7
    ensures !(Digits(f.mid[..2]) && Uppers(f.mid[2..5]) && Digits(f.mid[5..])) ==> FromAngel(raw) == NoMatch
    ensures Digits(f.mid[..2]) && Uppers(f.mid[2..5]) && Digits(f.mid[5..]) ==>
              (f.mid[2..5] !in NAMES ==> FromAngel(raw) == Raises)
              && forall m :: IsName(f.mid[2..5], m) ==>
                   var d := Date(2000 + ToNat(f.mid[5..]), m, ToNat(f.mid[..2]));
                   var sym := InternalSymbol(f.underlying, ToNat(f.strike) as real, f.optionType, d);
                   FromAngel(raw) == if ValidDate(d) then Symbol(sym) else Raises
  {
    hide *;
    CutFramed(raw, 7, f);
    FramedParts(raw, 7, f);
    AngelFrameReads(f);
    FromAngelIs(raw, f);
  }

  lemma FromAngelIs(raw: string, f: Frame)
    requires Cut(raw, 7) == Some(f) && Digits(f.strike) && |f.mid| == 7
    ensures FromAngel(raw) == ReadAngel(f)
  {
    hide Cut, ReadAngel, Digits;
  }

  lemma AngelFrameReads(f: Frame)
    requires |f.mid| == 7 && Digits(f.strike)
    ensures !(Digits(f.mid[..2]) && Uppers(f.mid[2..5]) && Digits(f.mid[5..])) ==> ReadAngel(f) == NoMatch
    ensures Digits(f.mid[..2]) && Uppers(f.mid[2..5]) && Digits(f.mid[5..]) ==>
              (f.mid[2..5] !in NAMES ==> ReadAngel(f) == Raises)
              && forall m :: IsName(f.mid[2..5], m) ==>
                   var d := Date(2000 + ToNat(f.mid[5..]), m, ToNat(f.mid[..2]));
                   var sym := InternalSymbol(f.underlying, ToNat(f.strike) as real, f.optionType, d);
                   ReadAngel(f) == if ValidDate(d) then Symbol(sym) else Raises
  {
    NameNumber(f.mid[2..5]);
    hide ToNat, MonthNumber, Digits, Uppers, IsName, ValidDate;
  }

  lemma NameNumber(s: string)
    ensures MonthNumber(s) == 0 <==> s !in NAMES
    ensures forall m :: IsName(s, m) ==> MonthNumber(s) == m
  {
    if s in NAMES {
      var i :| 0 <= i < |NAMES| && NAMES[i] == s;
      NumberOfName(i + 1);
    }
    forall m | IsName(s, m)
      ensures MonthNumber(s) == m
    {
      NumberOfName(m);
    }
    var n := MonthNumber(s);
    if n != 0 {
      NameOfNumber(s, n);
      assert NAMES[n - 1] in NAMES;
    }
  }

  lemma NumberOfName(m: int)
    requires 1 <= m <= 12
    ensures MonthNumber(NAMES[m - 1]) == m
  {
  }

  lemma NameOfNumber(s: string, n: int)
    requires n == MonthNumber(s) && n > 0
    ensures s == NAMES[n - 1]
  {
  }

  lemma AngelUnread(raw: string)
    requires forall f :: !Framed(raw, 7, f)
    ensures FromAngel(raw) == NoMatch
  {
    hide Cut, Framed, ReadAngel;
    if Cut(raw, 7).Some? {
      CutExact(raw, 7, Cut(raw, 7).value);
    }
  }

  lemma MidMonths(mid: string)
    requires |mid| == 5
    ensures MonthlyMid(mid) ==> NamesMonth(mid, MonthNumber(mid[2..]))
    ensures forall m :: NamesMonth(mid, m) ==> MonthlyMid(mid) && m == MonthNumber(mid[2..])
    ensures forall m :: CodesMonth(mid, m) ==> !MonthlyMid(mid) && WeeklyMid(mid) && m == CodeNumber(mid[2])
    ensures WeeklyMid(mid) && CodeNumber(mid[2]) != 0 ==> CodesMonth(mid, CodeNumber(mid[2]))
  {
  }

  lemma MonthLetters()
    ensures MonthName(1) == "JAN" && MonthName(2) == "FEB" && MonthName(3) == "MAR" && MonthName(4) == "APR"
    ensures MonthName(5) == "MAY" && MonthName(6) == "JUN" && MonthName(7) == "JUL" && MonthName(8) == "AUG"
    ensures MonthName(9) == "SEP" && MonthName(10) == "OCT" && MonthName(11) == "NOV" && MonthName(12) == "DEC"
  {
  }

  lemma MonthCodes(m: int)
    requires 1 <= m <= 12
    ensures CodeChar(m) == "123456789OND"[m - 1]
  {
    if m < 10 {
      DigitIs(m);
    }
  }

  /** The two forms of one contract, letter by letter. */
  lemma FyersLetters(underlying: string, optionType: string)
    requires underlying != "SENSEX"
    ensures var sym := InternalSymbol(underlying, 24500.0, optionType, Date(2026, 6, 30));
            ToFyers(sym, true) == "NSE:" + (underlying + ("26JUN" + ("24500" + optionType)))
            && ToFyers(sym, false) == "NSE:" + (underlying + ("26630" + ("24500" + optionType)))
    ensures var sym := InternalSymbol("SENSEX", 24500.0, optionType, Date(2026, 6, 30));
            ToFyers(sym, true) == "BSE:" + ("SENSEX" + ("26JUN" + ("24500" + optionType)))
  {
    var d := Date(2026, 6, 30);
    Strike24500();
    June30();
    hide Show, FyersMid, ShowInt, Truncate;
  }

  lemma Strike24500()
    ensures ShowInt(Truncate(24500.0)) == "24500"
  {
    Decimal(2, 4);
    Decimal(24, 5);
    Decimal(245, 0);
    Decimal(2450, 0);
    Decimal(0, 2);
    hide Show;
  }

  lemma June30()
    ensures FyersMid(Date(2026, 6, 30), true) == "26JUN" && FyersMid(Date(2026, 6, 30), false) == "26630"
    ensures AngelMid(Date(2026, 6, 30)) == "30JUN26"
  {
    Decimal(202, 6);
    Decimal(3, 0);
    MonthLetters();
    MonthCodes(6);
    hide Two, MonthName, CodeChar;
  }

  /** A commodity is printed in the monthly form whatever is listed, with the commodity exchange's prefix for one
      provider and without for the others; an index for the third provider as for the first, without prefix. */
  lemma OtherLetters(reg: Registry, underlying: string, optionType: string)
    ensures underlying in MCX ==>
              var d := Date(2026, 6, 30);
              GetBrokerSymbol(reg, underlying, d, 24500, optionType, FYERS)
                == "MCX:" + underlying + "26" + "JUN" + "24500" + optionType
              && GetBrokerSymbol(reg, underlying, d, 24500, optionType, ZERODHA)
                == "" + underlying + "26" + "JUN" + "24500" + optionType
    ensures Upper(underlying) !in MCX ==>
              var d := Date(2026, 6, 30);
              GetBrokerSymbol(reg, underlying, d, 24500, optionType, FYERS)[4..]
                == GetBrokerSymbol(reg, underlying, d, 24500, optionType, ZERODHA)
              && GetBrokerSymbol(reg, underlying, d, 24500, optionType, ANGELONE)
                == ToAngel(InternalSymbol(underlying, 24500.0, optionType, d))
  {
    Strike24500();
    Decimal(202, 6);
    MonthLetters();
    Commodities(underlying);
    hide Show, FyersMid, Two, MonthName, Upper;
    assert 24500 as real == 24500.0;
  }

  lemma Commodities(underlying: string)
    ensures underlying in MCX ==> Upper(underlying) == underlying
    ensures underlying in MCX <==> underlying in {"CRUDEOIL", "CRUDEOILM", "NATURALGAS", "GOLD", "SILVER"}
  {
  }

  lemma AngelLetters(underlying: string, optionType: string)
    ensures ToAngel(InternalSymbol(underlying, 24500.0, optionType, Date(2026, 6, 30)))
         == underlying + ("30JUN26" + ("24500" + optionType))
  {
    Strike24500();
    June30();
    hide Show, AngelMid, ShowInt, Truncate;
  }

  /** What the registry prints for a listed contract, `from_fyers` reads back as that contract. */
  lemma FyersRoundTrip(reg: Registry, underlying: string, expiry: Date, strike: nat, optionType: string)
    requires Sorted(Expiries(reg, underlying)) && expiry in Expiries(reg, underlying)
    requires Contract(InternalSymbol(underlying, strike as real, optionType, expiry)) && underlying !in MCX
    ensures FromFyers(reg, GetBrokerSymbol(reg, underlying, expiry, strike, optionType, FYERS))
         == Symbol(InternalSymbol(underlying, strike as real, optionType, expiry))
  {
    var monthly := IsMonthly(reg, underlying, expiry);
    FyersParse(reg, InternalSymbol(underlying, strike as real, optionType, expiry), monthly);
    if monthly {
      MonthlyResolves(reg, underlying, expiry);
    }
  }

  /** The same for any expiry, listed or not: it comes back exactly when it is printed weekly or is the date its
      month resolves to. */
  lemma FyersExact(reg: Registry, underlying: string, expiry: Date, strike: nat, optionType: string)
    requires Contract(InternalSymbol(underlying, strike as real, optionType, expiry)) && underlying !in MCX
    ensures FromFyers(reg, GetBrokerSymbol(reg, underlying, expiry, strike, optionType, FYERS))
              == Symbol(InternalSymbol(underlying, strike as real, optionType, expiry))
            <==> !IsMonthly(reg, underlying, expiry) || Resolve(reg, underlying, expiry.year, expiry.month) == expiry
  {
    FyersParse(reg, InternalSymbol(underlying, strike as real, optionType, expiry), IsMonthly(reg, underlying, expiry));
  }

  /** An unlisted expiry can fail: when nothing is listed, 30 June 2026 prints monthly, and its month resolves to the
      last Thursday, the 25th. */
  lemma UnlistedShifts(underlying: string, strike: nat, optionType: string)
    requires Contract(InternalSymbol(underlying, strike as real, optionType, Date(2026, 6, 30))) && underlying !in MCX
    ensures FromFyers(map[], GetBrokerSymbol(map[], underlying, Date(2026, 6, 30), strike, optionType, FYERS))
         == Symbol(InternalSymbol(underlying, strike as real, optionType, Date(2026, 6, 25)))
  {
    June2026(underlying);
    FyersParse(map[], InternalSymbol(underlying, strike as real, optionType, Date(2026, 6, 30)), true);
    hide FromFyers, ToFyers, IsMonthly, Resolve;
  }

  lemma June2026(underlying: string)
    ensures IsMonthly(map[], underlying, Date(2026, 6, 30))
    ensures Resolve(map[], underlying, 2026, 6) == Date(2026, 6, 25)
  {
    hide Weekday;
    assert Weekday(Date(2026, 6, 30)) == 1 by { Tuesday(); }
  }

  lemma Tuesday()
    ensures Weekday(Date(2026, 6, 30)) == 1
  {
    assert DaysBeforeMonth(2026, 1) == 0;
    assert DaysBeforeMonth(2026, 2) == 31;
    assert DaysBeforeMonth(2026, 3) == 59;
    assert DaysBeforeMonth(2026, 4) == 90;
    assert DaysBeforeMonth(2026, 5) == 120;
    assert DaysBeforeMonth(2026, 6) == 151;
  }

  /** A commodity symbol is never read as an index option. */
  lemma CommodityUnread(reg: Registry, underlying: string, expiry: Date, strike: int, optionType: string)
    requires ValidDate(expiry) && Upper(underlying) in MCX
    ensures FromFyers(reg, GetBrokerSymbol(reg, underlying, expiry, strike, optionType, FYERS)) == NoMatch
  {
    var raw := GetBrokerSymbol(reg, underlying, expiry, strike, optionType, FYERS);
    assert raw[..4] == "MCX:";
    assert raw[0] == 'M';
  }

  // ---------------------------------------------------------------- Angel One

  function AngelMid(d: Date): string
    requires ValidDate(d)
  {
    Two(d.day) + MonthName(d.month) + Two(d.year)
  }

  function ToAngel(sym: InternalSymbol): string
    requires ValidDate(sym.expiry)
  {
    sym.underlying + (AngelMid(sym.expiry) + (ShowInt(Truncate(sym.strike)) + sym.optionType))
  }

  function ReadAngel(f: Frame): Parsed
    requires |f.mid| == 7 && Digits(f.strike)
  {
    if !(Digits(f.mid[..2]) && Uppers(f.mid[2..5]) && Digits(f.mid[5..])) then NoMatch
    else
      var m := MonthNumber(f.mid[2..5]);
      if m == 0 then Raises
      else DateOr(2000 + ToNat(f.mid[5..]), m, ToNat(f.mid[..2]), f.underlying, f.strike, f.optionType)
  }

  function FromAngel(raw: string): Parsed {
    match Cut(raw, 7)
    case None => NoMatch
    case Some(f) => CutExact(raw, 7, f); ReadAngel(f)
  }

  lemma AngelMids(d: Date)
    requires ValidDate(d)
    ensures var mid := AngelMid(d);
            |mid| == 7 && IsDigit(mid[0]) && Digits(mid[..2]) && Uppers(mid[2..5]) && Digits(mid[5..])
            && ToNat(mid[..2]) == d.day && MonthNumber(mid[2..5]) == d.month && ToNat(mid[5..]) == d.year % 100
  {
    hide Two, ToNat, MonthNumber, MonthName;
    var mid := AngelMid(d);
    MonthNameNumber(d.month);
    assert mid[..2] == Two(d.day) && mid[2..5] == MonthName(d.month) && mid[5..] == Two(d.year);
    assert mid[0] == mid[..2][0];
  }

  lemma AngelRead(sym: InternalSymbol)
    requires Contract(sym)
    ensures ReadAngel(Frame(sym.underlying, AngelMid(sym.expiry), Show(sym.strike.Floor), sym.optionType))
        == Symbol(sym)
  {
    AngelMids(sym.expiry);
    hide AngelMid, MonthNumber, ToNat, Digits, Uppers;
    assert ToNat(Show(sym.strike.Floor)) as real == sym.strike;
    assert 2000 + sym.expiry.year % 100 == sym.expiry.year;
  }

  /** Angel One symbols carry the full date: every contract comes back. */
  lemma AngelRoundTrip(sym: InternalSymbol)
    requires Contract(sym)
    ensures FromAngel(ToAngel(sym)) == Symbol(sym)
  {
    AngelRead(sym);
    AngelMids(sym.expiry);
    PrintedCuts(sym, AngelMid(sym.expiry));
    hide Cut, Show, AngelMid, ReadAngel;
  }
}

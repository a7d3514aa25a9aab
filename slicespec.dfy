/**
 * The frame-selection specification of the input configuration: a
 * `"start:stop:step"` string or a ready-made slice object, turned into up to
 * three optional integers the way `str.split(':')`, `int(...)` and
 * `slice(*nums)` do it.
 */
module SliceSpec {
  import opened Wrappers

  /** Python's `slice(start, stop, step)`; each part may be `None`. */
  datatype Slice = Slice(start: Option<int>, stop: Option<int>, step: Option<int>)

  /** The value found under the configuration key `'slice'`. */
  datatype SliceInput = Text(s: string) | SliceObject(sl: Slice) | OtherValue

  datatype SliceError =
    | InvalidSliceObject            // ValueError("Invalid slice object")
    | InvalidLiteral(part: string)  // ValueError raised by int(part)
    | TooManyArguments(count: nat)  // TypeError: slice expected at most 3 arguments

  const Colon := ':'

  // ---------------------------------------------------------------------
  // str.split(':') and its inverse ':'.join(...)
  // ---------------------------------------------------------------------

  function Split(s: string, sep: char): (parts: seq<string>)
    ensures |parts| >= 1
    ensures forall i :: 0 <= i < |parts| ==> sep !in parts[i]
  {
    if |s| == 0 then [[]]
    else
      var rest := Split(s[1..], sep);
      if s[0] == sep then [[]] + rest
      else [[s[0]] + rest[0]] + rest[1..]
  }

  function Join(parts: seq<string>, sep: char): string
    requires |parts| >= 1
  {
    if |parts| == 1 then parts[0] else parts[0] + [sep] + Join(parts[1..], sep)
  }

  /** Splitting loses nothing: joining the parts gives the string back. */
  lemma {:induction false} JoinSplit(s: string, sep: char)
    ensures Join(Split(s, sep), sep) == s
  {
    if |s| > 0 {
      JoinSplit(s[1..], sep);
      var rest := Split(s[1..], sep);
      if s[0] == sep {
        assert Split(s, sep) == [[]] + rest;
        assert ([[]] + rest)[1..] == rest;
      } else {
        var parts := [[s[0]] + rest[0]] + rest[1..];
        assert Split(s, sep) == parts;
        if |rest| > 1 {
          assert parts[1..] == rest[1..];
          assert Join(rest, sep) == rest[0] + [sep] + Join(rest[1..], sep);
        }
      }
    }
  }

  /** Joining parts free of the separator and splitting again gives the parts back. */
  lemma {:induction false} SplitJoin(parts: seq<string>, sep: char)
    requires |parts| >= 1
    requires forall i :: 0 <= i < |parts| ==> sep !in parts[i]
    ensures Split(Join(parts, sep), sep) == parts
  {
    if |parts| == 1 {
      SplitNoSep(parts[0], sep);
    } else {
      SplitJoin(parts[1..], sep);
      var t := [sep] + Join(parts[1..], sep);
      SplitPrefix(parts[0], t, sep);
      assert parts[0] + [sep] + Join(parts[1..], sep) == parts[0] + t;
      assert Split(t, sep) == [[]] + parts[1..] by {
        assert t[1..] == Join(parts[1..], sep);
      }
      assert Split(parts[0] + t, sep) == [parts[0] + []] + parts[1..];
      assert parts[0] + [] == parts[0];
      assert [parts[0]] + parts[1..] == parts;
    }
  }

  lemma {:induction false} SplitNoSep(s: string, sep: char)
    requires sep !in s
    ensures Split(s, sep) == [s]
  {
    if |s| > 0 {
      assert sep !in s[1..];
      SplitNoSep(s[1..], sep);
      assert [s[0]] + s[1..] == s;
    }
  }

  /** A separator-free prefix is glued onto the first part of the rest. */
  lemma {:induction false} SplitPrefix(p: string, t: string, sep: char)
    requires sep !in p
    ensures Split(p + t, sep) == [p + Split(t, sep)[0]] + Split(t, sep)[1..]
  {
    if |p| > 0 {
      assert (p + t)[1..] == p[1..] + t;
      assert sep !in p[1..];
      SplitPrefix(p[1..], t, sep);
      assert [p[0]] + (p[1..] + Split(t, sep)[0]) == p + Split(t, sep)[0];
    } else {
      assert p + t == t;
      var q := Split(t, sep);
      assert p + q[0] == q[0];
      assert [q[0]] + q[1..] == q;
    }
  }

  // ---------------------------------------------------------------------
  // int(part): optional surrounding whitespace, an optional sign, decimal
  // digits with single underscores between them
  // ---------------------------------------------------------------------

  predicate IsSpace(c: char)
  {
    c == ' ' || c == '\t' || c == '\n' || c == '\r' || c == '\U{B}' || c == '\U{C}'
  }

  predicate IsDigit(c: char) { '0' <= c <= '9' }

  function DigitValue(c: char): nat
    requires IsDigit(c)
  {
    (c as int - '0' as int) as nat
  }

  function LStrip(s: string): (r: string)
    ensures |r| <= |s|
  {
    if |s| > 0 && IsSpace(s[0]) then LStrip(s[1..]) else s
  }

  function RStrip(s: string): (r: string)
    ensures |r| <= |s|
  {
    if |s| > 0 && IsSpace(s[|s| - 1]) then RStrip(s[..|s| - 1]) else s
  }

  function Strip(s: string): string
  {
    LStrip(RStrip(s))
  }

  predicate DigitsOrUnderscores(b: string)
  {
    forall i :: 0 <= i < |b| ==> IsDigit(b[i]) || b[i] == '_'
  }

  /** A digit run as `int` accepts it: non-empty, digits, and underscores only between digits. */
  predicate ValidDigits(b: string)
  {
    && |b| > 0
    && DigitsOrUnderscores(b)
    && IsDigit(b[0])
    && forall i :: 0 <= i < |b| ==> IsDigit(b[i]) || (b[i] == '_' && i + 1 < |b| && IsDigit(b[i + 1]))
  }

  /** The value of a digit run, underscores ignored. */
  function DigitsValue(b: string): nat
    requires DigitsOrUnderscores(b)
  {
    if |b| == 0 then 0
    else if b[|b| - 1] == '_' then DigitsValue(b[..|b| - 1])
    else DigitsValue(b[..|b| - 1]) * 10 + DigitValue(b[|b| - 1])
  }

  /** Python's `int(p)` on a string: `None` where it raises ValueError. */
  function ParseInt(p: string): Option<int>
  {
    var t := Strip(p);
    var negative := |t| > 0 && t[0] == '-';
    var body := if |t| > 0 && (t[0] == '-' || t[0] == '+') then t[1..] else t;
    if ValidDigits(body) then
      Some(if negative then -(DigitsValue(body) as int) else DigitsValue(body) as int)
    else None
  }

  // ---------------------------------------------------------------------
  // The parser
  // ---------------------------------------------------------------------

  /** `[int(p) if p else None for p in parts]`, stopping at the first part `int` rejects. */
  function ParseParts(parts: seq<string>): (r: Result<seq<Option<int>>, SliceError>)
    ensures r.Ok? ==> |r.value| == |parts|
    ensures r.Ok? ==> forall i :: 0 <= i < |parts| ==>
      (parts[i] == [] <==> r.value[i].None?) && (parts[i] != [] ==> r.value[i] == ParseInt(parts[i]))
    ensures r.Err? ==> r.error.InvalidLiteral?
    ensures r.Err? <==> exists i :: 0 <= i < |parts| && parts[i] != [] && ParseInt(parts[i]).None?
  {
    if |parts| == 0 then Ok([])
    else if parts[0] != [] && ParseInt(parts[0]).None? then Err(InvalidLiteral(parts[0]))
    else
      var head := if parts[0] == [] then None else ParseInt(parts[0]);
      match ParseParts(parts[1..])
      case Err(e) => Err(e)
      case Ok(rest) => Ok([head] + rest)
  }

  /** `slice(*nums)`: one argument is the stop, two are start and stop, three add the step. */
  function SliceOf(nums: seq<Option<int>>): (r: Result<Slice, SliceError>)
    requires |nums| >= 1
    ensures r.Err? <==> |nums| > 3
    ensures r.Ok? ==> r.value.stop == nums[if |nums| == 1 then 0 else 1]
    ensures r.Ok? ==> r.value.start == (if |nums| == 1 then None else nums[0])
    ensures r.Ok? ==> r.value.step == (if |nums| == 3 then nums[2] else None)
  {
    if |nums| == 1 then Ok(Slice(None, nums[0], None))
    else if |nums| == 2 then Ok(Slice(nums[0], nums[1], None))
    else if |nums| == 3 then Ok(Slice(nums[0], nums[1], nums[2]))
    else Err(TooManyArguments(|nums|))
  }

  /** The slice conversion at the start of loading. */
  function Parse(input: SliceInput): (r: Result<Slice, SliceError>)
    ensures input.OtherValue? <==> r == Err(InvalidSliceObject)
    ensures input.SliceObject? ==> r == Ok(input.sl)
    ensures input.Text? && r.Ok? ==> |Split(input.s, Colon)| <= 3
  {
    match input
    case SliceObject(sl) => Ok(sl)
    case OtherValue => Err(InvalidSliceObject)
    case Text(s) =>
      match ParseParts(Split(s, Colon))
      case Err(e) => Err(e)
      case Ok(nums) => SliceOf(nums)
  }

  // ---------------------------------------------------------------------
  // The inverse: rendering a slice as "start:stop:step"
  // ---------------------------------------------------------------------

  function ShowNat(n: nat): (r: string)
    ensures |r| > 0 && forall i :: 0 <= i < |r| ==> IsDigit(r[i])
  {
    var d := ['0' + (n % 10) as char];
    if n < 10 then d else ShowNat(n / 10) + d
  }

  function ShowInt(i: int): string
  {
    if i < 0 then "-" + ShowNat(-i) else ShowNat(i)
  }

  function ShowPart(o: Option<int>): string
  {
    match o
    case None => ""
    case Some(i) => ShowInt(i)
  }

  function Format(sl: Slice): string
  {
    ShowPart(sl.start) + [Colon] + ShowPart(sl.stop) + [Colon] + ShowPart(sl.step)
  }

  lemma {:induction false} ShowNatValue(n: nat)
    ensures DigitsValue(ShowNat(n)) == n
  {
    var d := ['0' + (n % 10) as char];
    if n >= 10 {
      ShowNatValue(n / 10);
      var s := ShowNat(n / 10) + d;
      assert s[..|s| - 1] == ShowNat(n / 10);
    }
  }

  lemma StripKeeps(s: string)
    requires |s| > 0 && !IsSpace(s[0]) && !IsSpace(s[|s| - 1])
    ensures Strip(s) == s
  {
  }

  /** `int` reads back every integer `ShowInt` writes. */
  lemma ParseShowInt(i: int)
    ensures ParseInt(ShowInt(i)) == Some(i)
  {
    var s := ShowInt(i);
    var n: nat := if i < 0 then -i else i;
    var d := ShowNat(n);
    assert ValidDigits(d) && DigitsValue(d) == n by {
      ShowNatValue(n);
    }
    assert Strip(s) == s by {
      StripKeeps(s);
    }
    if i < 0 {
      assert s[0] == '-' && s[1..] == d;
    } else {
      assert s == d && IsDigit(s[0]);
    }
  }

  lemma ShowPartColonFree(o: Option<int>)
    ensures Colon !in ShowPart(o)
    ensures ShowPart(o) == [] <==> o.None?
  {
    if o.Some? && o.value < 0 {
      assert ShowPart(o) == "-" + ShowNat(-o.value);
      assert forall j :: 0 <= j < |ShowPart(o)| ==> ShowPart(o)[j] == '-' || IsDigit(ShowPart(o)[j]);
    }
  }

  lemma ParseShowPart(o: Option<int>)
    ensures ShowPart(o) != [] ==> ParseInt(ShowPart(o)) == o
  {
    if o.Some? { ParseShowInt(o.value); }
  }

  lemma {:induction false} ParsePartsShown(os: seq<Option<int>>)
    ensures ParseParts(seq(|os|, i requires 0 <= i < |os| => ShowPart(os[i]))) == Ok(os)
  {
    var parts := seq(|os|, i requires 0 <= i < |os| => ShowPart(os[i]));
    if |os| > 0 {
      ParsePartsShown(os[1..]);
      assert parts[1..] == seq(|os[1..]|, i requires 0 <= i < |os[1..]| => ShowPart(os[1..][i]));
      ParseShowPart(os[0]);
      ShowPartColonFree(os[0]);
      assert [os[0]] + os[1..] == os;
    }
  }

  lemma FormatSplit(sl: Slice)
    ensures Split(Format(sl), Colon) == [ShowPart(sl.start), ShowPart(sl.stop), ShowPart(sl.step)]
  {
    var parts := [ShowPart(sl.start), ShowPart(sl.stop), ShowPart(sl.step)];
    ShowPartColonFree(sl.start);
    ShowPartColonFree(sl.stop);
    ShowPartColonFree(sl.step);
    assert Join(parts, Colon) == Format(sl) by {
      assert Join(parts[2..], Colon) == parts[2];
      assert Join(parts[1..], Colon) == parts[1] + [Colon] + parts[2];
    }
    SplitJoin(parts, Colon);
  }

  /** Round trip: every slice, written as `"start:stop:step"`, parses back to itself. */
  lemma ParseFormat(sl: Slice)
    ensures Parse(Text(Format(sl))) == Ok(sl)
  {
    var os := [sl.start, sl.stop, sl.step];
    FormatSplit(sl);
    ParsePartsShown(os);
    assert seq(|os|, i requires 0 <= i < |os| => ShowPart(os[i]))
      == [ShowPart(sl.start), ShowPart(sl.stop), ShowPart(sl.step)];
  }

  /** `"::10"` selects every tenth frame. */
  lemma EveryTenthFrame()
    ensures Parse(Text("::10")) == Ok(Slice(None, None, Some(10)))
  {
    var parts := Split("::10", Colon);
    assert parts == ["", "", "10"] by {
      SplitNoSep("10", Colon);
      assert ":10"[1..] == "10";
      assert Split(":10", Colon) == ["", "10"];
      assert "::10"[1..] == ":10";
    }
    assert ParseInt("10") == Some(10) by {
      ParseShowInt(10);
      assert ShowInt(10) == "10";
    }
    var r := ParseParts(parts);
    assert r.Ok? by {
      assert forall i :: 0 <= i < |parts| && parts[i] != [] ==> i == 2;
    }
    assert r.value == [None, None, Some(10)];
  }

  /** `":"` is the whole trajectory. */
  lemma WholeTrajectory()
    ensures Parse(Text(":")) == Ok(Slice(None, None, None))
  {
    assert Split(":", Colon) == ["", ""];
  }

  /** A lone number is the stop, as in `slice(5)`. */
  lemma LoneNumberIsStop()
    ensures Parse(Text("5")) == Ok(Slice(None, Some(5), None))
  {
    SplitNoSep("5", Colon);
    assert ParseInt("5") == Some(5) by {
      ParseShowInt(5);
      assert ShowInt(5) == "5";
    }
  }

  /** Four fields are one argument too many for `slice`. */
  lemma FourFieldsRejected()
    ensures Parse(Text(":::")) == Err(TooManyArguments(4))
  {
    assert Split(":::", Colon) == ["", "", "", ""];
  }
}

/**
 * The text form of the catalog: the line `logAccident` appends to the log
 * file, and the stream reads `loadReports` performs on it. The input stream is
 * modelled as the text that is still unread; every read returns what it
 * extracted together with the text that remains.
 */
module ReportCodec {
  import opened Wrappers
  import opened Accident

  // ---------------------------------------------------------------------
  // Writing: logAccident
  // ---------------------------------------------------------------------

  /** `id,vehicle,location,cost` and a newline. */
  function LogLine(r: Report): string {
    r.reportId + "," + r.vehicleNumber + "," + r.location + "," + ShowInt(r.damageCost) + "\n"
  }

  /** The log file after the given reports were logged one after the other. */
  function LogText(rs: seq<Report>): string {
    if rs == [] then [] else LogLine(rs[0]) + LogText(rs[1..])
  }

  /** The exception logAccident throws when the file cannot be opened. */
  datatype FileError = CannotOpenForWriting

  /** logAccident: opening in append mode either fails or adds exactly one line at the end. */
  function LogAccident(r: Report, file: string, opens: bool): (res: Result<string, FileError>)
    ensures res.Err? <==> !opens
    ensures res.Ok? ==> |file| <= |res.value| && res.value[..|file|] == file
    ensures res.Ok? ==> res.value[|file|..] == LogLine(r)
  {
    if opens then Ok(file + LogLine(r)) else Err(CannotOpenForWriting)
  }

  /** A logged line ends in a newline; a comma-free report's line holds exactly the three separating commas. */
  lemma LogLineShape(r: Report)
    ensures |LogLine(r)| > 0 && LogLine(r)[|LogLine(r)| - 1] == '\n'
    ensures CommaFree(r) ==> multiset(LogLine(r))[','] == 3
  {
    ShowIntText(r.damageCost);
    var cost := ShowInt(r.damageCost);
    assert LogLine(r) == (r.reportId + "," + r.vehicleNumber + "," + r.location + "," + cost) + "\n";
    if CommaFree(r) {
      assert multiset(r.reportId)[','] == 0 && multiset(r.vehicleNumber)[','] == 0;
      assert multiset(r.location)[','] == 0 && multiset(cost)[','] == 0;
    }
  }

  /** Each logged line goes at the end of the file. */
  lemma {:induction false} LogTextAppend(rs: seq<Report>, r: Report)
    ensures LogText(rs + [r]) == LogText(rs) + LogLine(r)
  {
    if rs == [] {
      assert rs + [r] == [r];
      assert LogText([r]) == LogLine(r) + LogText([]);
    } else {
      assert (rs + [r])[1..] == rs[1..] + [r];
      LogTextAppend(rs[1..], r);
    }
  }

  // ---------------------------------------------------------------------
  // Reading: the extractions of loadReports
  // ---------------------------------------------------------------------

  /** What one extraction produced, and the text left after it. */
  datatype Read<T> = Read(got: T, rest: string)

  function TakeField(s: string): (r: Read<string>)
    ensures ',' !in r.got
    ensures s == r.got + [','] + r.rest || (s == r.got && r.rest == [])
  {
    if s == [] then Read([], [])
    else if s[0] == ',' then Read([], s[1..])
    else
      var tail := TakeField(s[1..]);
      Read([s[0]] + tail.got, tail.rest)
  }

  /**
   * `getline(fin, field, ',')`: the characters up to the next comma, which is
   * consumed and not stored, or up to the end. It fails only when nothing is
   * left to read; a newline is an ordinary character here.
   */
  function ReadField(s: string): (r: Option<Read<string>>)
    ensures r.None? <==> s == []
    ensures r.Some? ==> ',' !in r.value.got && |r.value.rest| < |s|
    ensures r.Some? ==> (s == r.value.got + [','] + r.value.rest || (s == r.value.got && r.value.rest == []))
  {
    if s == [] then None else Some(TakeField(s))
  }

  /** The white-space characters `operator>>` skips. */
  predicate IsSpace(c: char) {
    c == ' ' || c == '\t' || c == '\n' || c == '\U{000B}' || c == '\U{000C}' || c == '\r'
  }

  predicate AllSpace(s: string) {
    forall k :: 0 <= k < |s| ==> IsSpace(s[k])
  }

  /** Drops the white space at the front, and nothing else. */
  function SkipSpace(s: string): (t: string)
    ensures |t| <= |s|
    ensures t == [] || !IsSpace(t[0])
    ensures s != [] && !IsSpace(s[0]) ==> t == s
  {
    if s != [] && IsSpace(s[0]) then SkipSpace(s[1..]) else s
  }

  /** What SkipSpace drops is a prefix of the text made only of white space. */
  lemma {:induction false} SkipSpaceDropsOnlySpace(s: string)
    ensures SkipSpace(s) == s[|s| - |SkipSpace(s)|..]
    ensures AllSpace(s[..|s| - |SkipSpace(s)|])
  {
    if s != [] && IsSpace(s[0]) {
      var t := SkipSpace(s[1..]);
      SkipSpaceDropsOnlySpace(s[1..]);
      assert s[1..][|s| - 1 - |t|..] == s[|s| - |t|..];
      var dropped := s[..|s| - |t|];
      assert dropped == [s[0]] + s[1..][..|s| - 1 - |t|];
      assert forall k :: 0 < k < |dropped| ==> dropped[k] == s[1..][..|s| - 1 - |t|][k - 1];
    }
  }

  /** The longest run of digits at the front, and what follows it. */
  function TakeDigits(s: string): (r: Read<string>)
    ensures s == r.got + r.rest && AllDigits(r.got)
    ensures r.rest == [] || !IsDigit(r.rest[0])
  {
    if s != [] && IsDigit(s[0]) then
      var tail := TakeDigits(s[1..]);
      Read([s[0]] + tail.got, tail.rest)
    else Read([], s)
  }

  /** An optional leading sign: whether it was a minus, and the text after it. */
  function ReadSign(t: string): (r: Read<bool>)
    ensures |r.rest| <= |t|
  {
    if t != [] && t[0] == '-' then Read(true, t[1..])
    else if t != [] && t[0] == '+' then Read(false, t[1..])
    else Read(false, t)
  }

  /** The digits after the sign, and their signed value. */
  function ReadMagnitude(sign: Read<bool>): (r: Option<Read<int>>)
    ensures r.Some? ==> |r.value.rest| < |sign.rest|
  {
    var digits := TakeDigits(sign.rest);
    if digits.got == [] then None
    else
      var magnitude: int := DigitsValue(digits.got);
      Some(Read(if sign.got then -magnitude else magnitude, digits.rest))
  }

  /** Only a leading '-' or '+' is consumed, and only '-' makes the value negative. */
  lemma ReadSignSpec(t: string)
    ensures ReadSign(t).rest != t <==> t != [] && (t[0] == '-' || t[0] == '+')
    ensures ReadSign(t).rest != t ==> ReadSign(t).rest == t[1..]
    ensures ReadSign(t).got <==> t != [] && t[0] == '-'
  {
  }

  /**
   * The number after the sign: it fails exactly when no digit follows; otherwise
   * it consumes the whole run of digits and gives their value, negated after '-'.
   */
  lemma ReadMagnitudeSpec(sign: Read<bool>)
    ensures ReadMagnitude(sign).None? <==> sign.rest == [] || !IsDigit(sign.rest[0])
    ensures ReadMagnitude(sign).Some? ==>
              var r := ReadMagnitude(sign).value;
              var n := |sign.rest| - |r.rest|;
              0 < n && sign.rest[n..] == r.rest && AllDigits(sign.rest[..n]) &&
              (r.rest == [] || !IsDigit(r.rest[0])) &&
              r.got == (if sign.got then -1 else 1) * DigitsValue(sign.rest[..n])
  {
    var digits := TakeDigits(sign.rest);
    if sign.rest != [] && IsDigit(sign.rest[0]) {
      assert digits.got != [];
      var n := |digits.got|;
      assert sign.rest[..n] == digits.got && sign.rest[n..] == digits.rest;
    } else {
      assert digits.got == [];
    }
  }

  /**
   * `fin >> cost` for an integer cost: leading white space, an optional sign,
   * then at least one digit; the digits end at the first other character.
   */
  function ReadCost(s: string): (r: Option<Read<int>>)
    ensures r.Some? ==> |r.value.rest| < |s|
  {
    ReadMagnitude(ReadSign(SkipSpace(s)))
  }

  /** `fin.ignore()`: drops one character, if there is one. */
  function Ignore(s: string): (t: string)
    ensures |t| <= |s|
    ensures s != [] ==> t == s[1..]
  {
    if s == [] then s else s[1..]
  }

  /**
   * One evaluation of the loop condition of loadReports followed by the
   * `ignore()` in the body: the four fields as read, before validation.
   */
  function ReadRecord(s: string): (r: Option<Read<Report>>)
    ensures r.Some? ==> |r.value.rest| < |s|
  {
    var id := ReadField(s);
    if id.None? then None else
    var vnum := ReadField(id.value.rest);
    if vnum.None? then None else
    var loc := ReadField(vnum.value.rest);
    if loc.None? then None else
    var cost := ReadCost(loc.value.rest);
    if cost.None? then None else
    Some(Read(Report(id.value.got, vnum.value.got, loc.value.got, cost.value.got), Ignore(cost.value.rest)))
  }

  /**
   * The reports loadReports appends, in file order: a record whose
   * constructor throws is skipped and reading goes on; the first record that
   * cannot be read ends the loop.
   */
  function LoadedFrom(s: string): (rs: seq<Report>)
    ensures AllValid(rs)
    decreases |s|
  {
    var record := ReadRecord(s);
    if record.None? then []
    else
      var fields := record.value.got;
      var made := NewReport(fields.reportId, fields.vehicleNumber, fields.location, fields.damageCost);
      if made.Ok? then [made.value] + LoadedFrom(record.value.rest)
      else LoadedFrom(record.value.rest)
  }

  // ---------------------------------------------------------------------
  // The round trip
  // ---------------------------------------------------------------------

  /** The text fields hold no comma, so each one reads back as one field. */
  predicate CommaFree(r: Report) {
    ',' !in r.reportId && ',' !in r.vehicleNumber && ',' !in r.location
  }

  predicate AllCommaFree(rs: seq<Report>) {
    forall i :: 0 <= i < |rs| ==> CommaFree(rs[i])
  }

  /** The reports whose cost the constructor accepts, in order. */
  function Accepted(rs: seq<Report>): (acc: seq<Report>)
    ensures AllValid(acc)
    ensures AllValid(rs) ==> acc == rs
  {
    if rs == [] then []
    else if IsValid(rs[0]) then [rs[0]] + Accepted(rs[1..])
    else Accepted(rs[1..])
  }

  lemma {:induction false} ReadFieldDelimited(f: string, t: string)
    requires ',' !in f
    ensures ReadField(f + "," + t) == Some(Read(f, t))
  {
    FieldBeforeComma(f, t);
  }

  lemma {:induction false} FieldBeforeComma(f: string, t: string)
    requires ',' !in f
    ensures TakeField(f + "," + t) == Read(f, t)
  {
    if f == [] {
      assert f + "," + t == [','] + t;
    } else {
      var s := f + "," + t;
      assert f[0] in f;
      assert s[0] == f[0] && s[0] != ',';
      assert s[1..] == f[1..] + "," + t;
      FieldBeforeComma(f[1..], t);
      assert TakeField(s) == Read([s[0]] + TakeField(s[1..]).got, TakeField(s[1..]).rest);
      assert [f[0]] + f[1..] == f;
    }
  }

  lemma {:induction false} TakeDigitsRun(ds: string, t: string)
    requires AllDigits(ds)
    requires t == [] || !IsDigit(t[0])
    ensures TakeDigits(ds + t) == Read(ds, t)
  {
    if ds == [] {
      assert ds + t == t;
    } else {
      var s := ds + t;
      assert s[0] == ds[0] && IsDigit(ds[0]);
      assert s[1..] == ds[1..] + t;
      TakeDigitsRun(ds[1..], t);
      assert TakeDigits(s) == Read([s[0]] + TakeDigits(s[1..]).got, TakeDigits(s[1..]).rest);
      assert [ds[0]] + ds[1..] == ds;
    }
  }

  /** An optional minus sign followed by a run of digits reads as that signed value. */
  lemma {:induction false} ReadSignedDigits(negative: bool, digits: string, t: string)
    requires AllDigits(digits) && digits != []
    requires t == [] || !IsDigit(t[0])
    ensures ReadCost((if negative then "-" else "") + digits + t) ==
            Some(Read(if negative then -(DigitsValue(digits) as int) else DigitsValue(digits), t))
  {
    var s := (if negative then "-" else "") + digits + t;
    assert IsDigit(digits[0]);
    TakeDigitsRun(digits, t);
    if negative {
      assert s == "-" + (digits + t);
      assert s[0] == '-' && s[1..] == digits + t;
      ReadCostWithoutSpace(s);
      assert ReadSign(s) == Read(true, digits + t);
    } else {
      assert s == digits + t;
      assert s[0] == digits[0];
      ReadCostWithoutSpace(s);
      assert ReadSign(s) == Read(false, digits + t);
    }
  }

  /** Text that does not start with white space is read from its first character. */
  lemma ReadCostWithoutSpace(s: string)
    requires s != [] && !IsSpace(s[0])
    ensures ReadCost(s) == ReadMagnitude(ReadSign(s))
  {
    assert SkipSpace(s) == s;
  }

  /** The cost operator<< writes reads back as the same value, up to the next non-digit. */
  lemma {:induction false} ReadCostShowInt(c: int, t: string)
    requires t == [] || !IsDigit(t[0])
    ensures ReadCost(ShowInt(c) + t) == Some(Read(c, t))
  {
    var n: nat := if c < 0 then -c else c;
    var digits := ShowNat(n);
    ShowNatValue(n);
    ReadSignedDigits(c < 0, digits, t);
    assert ShowInt(c) == (if c < 0 then "-" else "") + digits;
  }

  /** Skipping white space in front of text that starts with something else leaves that text. */
  lemma {:induction false} SkipSpacePrefix(sp: string, x: string)
    requires AllSpace(sp)
    requires x == [] || !IsSpace(x[0])
    ensures SkipSpace(sp + x) == x
  {
    if sp == [] {
      assert sp + x == x;
    } else {
      assert (sp + x)[0] == sp[0] && IsSpace(sp[0]);
      assert (sp + x)[1..] == sp[1..] + x;
      assert AllSpace(sp[1..]) by {
        assert forall k :: 0 <= k < |sp| - 1 ==> sp[1..][k] == sp[k + 1];
      }
      SkipSpacePrefix(sp[1..], x);
    }
  }

  /** `>>` reads a written cost the same way when white space precedes it. */
  lemma ReadCostAfterSpace(sp: string, c: int, t: string)
    requires AllSpace(sp)
    requires t == [] || !IsDigit(t[0])
    ensures ReadCost(sp + ShowInt(c) + t) == Some(Read(c, t))
  {
    var x := ShowInt(c) + t;
    ShowIntText(c);
    assert x[0] == ShowInt(c)[0];
    assert !IsSpace(x[0]);
    assert sp + ShowInt(c) + t == sp + x;
    SkipSpacePrefix(sp, x);
    ReadCostWithoutSpace(x);
    ReadCostShowInt(c, t);
  }

  /** Reading the line logAccident wrote gives back all four fields and stops right after it. */
  lemma {:induction false} ReadRecordLogLine(r: Report, t: string)
    requires CommaFree(r)
    ensures ReadRecord(LogLine(r) + t) == Some(Read(r, t))
  {
    var cost := ShowInt(r.damageCost);
    var s3 := cost + ("\n" + t);
    var s2 := r.location + "," + s3;
    var s1 := r.vehicleNumber + "," + s2;
    assert LogLine(r) + t == r.reportId + "," + s1;
    ReadFieldDelimited(r.reportId, s1);
    ReadFieldDelimited(r.vehicleNumber, s2);
    ReadFieldDelimited(r.location, s3);
    assert !IsDigit(("\n" + t)[0]);
    ReadCostShowInt(r.damageCost, "\n" + t);
    assert Ignore("\n" + t) == t;
  }

  /** One record read: the loaded reports are that record, if it is valid, then the rest. */
  lemma LoadedFromStep(s: string, fields: Report, rest: string)
    requires ReadRecord(s) == Some(Read(fields, rest))
    ensures LoadedFrom(s) == (if IsValid(fields) then [fields] else []) + LoadedFrom(rest)
  {
  }

  /**
   * Loading a log file that starts with logged lines yields the logged
   * reports with an acceptable cost, then whatever the remaining text yields.
   */
  lemma {:induction false} LoadLogText(rs: seq<Report>, t: string)
    requires AllCommaFree(rs)
    ensures LoadedFrom(LogText(rs) + t) == Accepted(rs) + LoadedFrom(t)
  {
    if rs == [] {
      assert LogText(rs) + t == t;
    } else {
      var head, tail := rs[0], rs[1..];
      var rest := LogText(tail) + t;
      assert LogText(rs) + t == LogLine(head) + rest by {
        assert LogText(rs) == LogLine(head) + LogText(tail);
      }
      assert CommaFree(head);
      ReadRecordLogLine(head, rest);
      LoadedFromStep(LogLine(head) + rest, head, rest);
      assert AllCommaFree(tail) by {
        forall i | 0 <= i < |tail| ensures CommaFree(tail[i]) {
          assert tail[i] == rs[i + 1];
        }
      }
      LoadLogText(tail, t);
      var first := if IsValid(head) then [head] else [];
      assert Accepted(rs) == first + Accepted(tail);
      calc {
        LoadedFrom(LogText(rs) + t);
        LoadedFrom(LogLine(head) + rest);
        first + LoadedFrom(rest);
        first + (Accepted(tail) + LoadedFrom(t));
        { SeqAssoc(first, Accepted(tail), LoadedFrom(t)); }
        (first + Accepted(tail)) + LoadedFrom(t);
        Accepted(rs) + LoadedFrom(t);
      }
    }
  }

  lemma SeqAssoc<T>(a: seq<T>, b: seq<T>, c: seq<T>)
    ensures a + (b + c) == (a + b) + c
  {
  }

  /** The round trip: loading a file of logged reports gives back exactly those reports, in order. */
  lemma LoadRoundTrip(rs: seq<Report>)
    requires AllValid(rs) && AllCommaFree(rs)
    ensures LoadedFrom(LogText(rs)) == rs
  {
    LoadLogText(rs, []);
    assert LogText(rs) + [] == LogText(rs);
    assert LoadedFrom([]) == [];
  }

  /** A line whose cost is not positive is read but adds nothing; the next line is still read. */
  lemma SkipsNonPositiveCost(r: Report, t: string)
    requires CommaFree(r) && r.damageCost <= 0
    ensures LoadedFrom(LogLine(r) + t) == LoadedFrom(t)
  {
    ReadRecordLogLine(r, t);
  }

  /** The first record that cannot be read ends loading: nothing after it is added. */
  lemma StopsAtUnreadable(rs: seq<Report>, u: string)
    requires AllCommaFree(rs)
    requires ReadRecord(u).None?
    ensures LoadedFrom(LogText(rs) + u) == Accepted(rs)
  {
    LoadLogText(rs, u);
    assert LoadedFrom(u) == [];
  }

  /** A report logged after earlier ones is loaded back after them in the next session. */
  lemma LoggedReportLoadsBack(rs: seq<Report>, r: Report)
    requires AllValid(rs) && AllCommaFree(rs)
    requires IsValid(r) && CommaFree(r)
    ensures LoadedFrom(LogText(rs) + LogLine(r)) == rs + [r]
  {
    LogTextAppend(rs, r);
    var all := rs + [r];
    forall i | 0 <= i < |all| ensures IsValid(all[i]) && CommaFree(all[i]) {
      if i < |rs| { assert all[i] == rs[i]; }
    }
    LoadRoundTrip(all);
  }

  /**
   * Fields are read up to commas, not lines: text without a comma in front of
   * a logged line (a line with no commas, say) becomes the start of its id.
   */
  lemma TextWithoutCommaJoinsNextId(junk: string, r: Report, t: string)
    requires ',' !in junk && CommaFree(r)
    ensures ReadRecord(junk + LogLine(r) + t) == Some(Read(r.(reportId := junk + r.reportId), t))
  {
    var joined := r.(reportId := junk + r.reportId);
    assert junk + LogLine(r) == LogLine(joined);
    assert forall k :: 0 <= k < |junk + r.reportId| ==> (junk + r.reportId)[k] in junk || (junk + r.reportId)[k] in r.reportId;
    ReadRecordLogLine(joined, t);
  }

  /**
   * A cost field that cannot start a number cannot be read: it starts with
   * none of a digit, a sign, white space or '.' (the program reads the cost
   * into a double, which also accepts a leading decimal point).
   */
  lemma CostNotANumber(bad: string)
    requires bad == [] || (!IsSpace(bad[0]) && !IsDigit(bad[0]) && bad[0] != '-' && bad[0] != '+' && bad[0] != '.')
    ensures ReadCost(bad).None?
  {
    assert SkipSpace(bad) == bad;
    assert ReadSign(bad) == Read(false, bad);
    assert TakeDigits(bad).got == [];
  }

  /** Three comma-free fields followed by such a cost field do not make a record. */
  lemma UnreadableRecord(id: string, vnum: string, loc: string, bad: string)
    requires ',' !in id && ',' !in vnum && ',' !in loc
    requires bad == [] || (!IsSpace(bad[0]) && !IsDigit(bad[0]) && bad[0] != '-' && bad[0] != '+' && bad[0] != '.')
    ensures ReadRecord(id + "," + vnum + "," + loc + "," + bad).None?
  {
    var s2 := loc + "," + bad;
    var s1 := vnum + "," + s2;
    assert id + "," + vnum + "," + loc + "," + bad == id + "," + s1;
    ReadFieldDelimited(id, s1);
    ReadFieldDelimited(vnum, s2);
    ReadFieldDelimited(loc, bad);
    CostNotANumber(bad);
  }

  /** Such a cost ends loading there, even when good records follow it. */
  lemma UnreadableCostStopsLoading(rs: seq<Report>, id: string, vnum: string, loc: string, bad: string)
    requires AllCommaFree(rs)
    requires ',' !in id && ',' !in vnum && ',' !in loc
    requires bad == [] || (!IsSpace(bad[0]) && !IsDigit(bad[0]) && bad[0] != '-' && bad[0] != '+' && bad[0] != '.')
    ensures LoadedFrom(LogText(rs) + (id + "," + vnum + "," + loc + "," + bad)) == Accepted(rs)
  {
    UnreadableRecord(id, vnum, loc, bad);
    StopsAtUnreadable(rs, id + "," + vnum + "," + loc + "," + bad);
  }
}

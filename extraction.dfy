/**
 * Field extraction and reporting after a scan (main.py:126-169).
 *
 * The OCR engine's output is given as the list of recognised texts; the
 * name pattern of main.py:111 is a general regular expression, so the list of
 * its matches in one text is given by the parameter `findNames`. The other
 * three fields use the matchers of module Patterns. What the block prints is
 * a list of `Line`s.
 */
module Extraction {
  import opened Wrappers
  import opened Patterns
  import opened Dates

  // ---------------------------------------------------------------------
  // Collecting the matches of every recognised text (main.py:126-132)
  // ---------------------------------------------------------------------

  /** The lists of `list.extend` calls, one after the other. */
  function Flatten(xss: seq<seq<string>>): seq<string>
  {
    if xss == [] then [] else Flatten(xss[..|xss| - 1]) + xss[|xss| - 1]
  }

  /** The matches contributed by each text, in OCR order. */
  function PerText(p: Pattern, texts: seq<string>): seq<seq<string>>
  {
    seq(|texts|, k requires 0 <= k < |texts| => FindAll(p, texts[k]))
  }

  function NamesPerText(findNames: string -> seq<string>, texts: seq<string>): seq<seq<string>>
  {
    seq(|texts|, k requires 0 <= k < |texts| => findNames(texts[k]))
  }

  /** The flattened list holds nothing exactly when every part is empty. */
  lemma {:induction false} FlattenEmpty(xss: seq<seq<string>>)
    ensures Flatten(xss) == [] <==> forall k :: 0 <= k < |xss| ==> xss[k] == []
  {
    if xss != [] {
      FlattenEmpty(xss[..|xss| - 1]);
      assert forall k :: 0 <= k < |xss| - 1 ==> xss[..|xss| - 1][k] == xss[k];
    }
  }

  /**
   * First match wins: the head of the flattened list is the head of the first
   * part (the first text) that has any match.
   */
  lemma {:induction false} FlattenFirst(xss: seq<seq<string>>, k: int)
    requires 0 <= k < |xss| && xss[k] != []
    requires forall j :: 0 <= j < k ==> xss[j] == []
    ensures Flatten(xss) != [] && Flatten(xss)[0] == xss[k][0]
  {
    if k < |xss| - 1 {
      var init := xss[..|xss| - 1];
      FlattenFirst(init, k);
    } else {
      var init := xss[..|xss| - 1];
      assert forall j :: 0 <= j < |init| ==> init[j] == xss[j];
      FlattenEmpty(init);
    }
  }

  /** Every collected match comes from one of the parts. */
  lemma {:induction false} FlattenMember(xss: seq<seq<string>>, i: int)
    requires 0 <= i < |Flatten(xss)|
    ensures exists k :: 0 <= k < |xss| && Flatten(xss)[i] in xss[k]
  {
    var init := xss[..|xss| - 1];
    if i < |Flatten(init)| {
      FlattenMember(init, i);
      var k :| 0 <= k < |init| && Flatten(init)[i] in init[k];
      assert init[k] == xss[k];
    } else {
      assert Flatten(xss)[i] == xss[|xss| - 1][i - |Flatten(init)|];
    }
  }

  /**
   * main.py:126-132: one pass over the recognised texts, extending the four
   * match lists with each text's matches.
   */
  method Accumulate(texts: seq<string>, findNames: string -> seq<string>)
    returns (names: seq<string>, dobs: seq<string>, genders: seq<string>, ids: seq<string>)
    ensures names == Flatten(NamesPerText(findNames, texts))
    ensures dobs == Flatten(PerText(DobPattern, texts))
    ensures genders == Flatten(PerText(GenderPattern, texts))
    ensures ids == Flatten(PerText(AadhaarPattern, texts))
  {
    names, dobs, genders, ids := [], [], [], [];
    for i := 0 to |texts|
      invariant names == Flatten(NamesPerText(findNames, texts[..i]))
      invariant dobs == Flatten(PerText(DobPattern, texts[..i]))
      invariant genders == Flatten(PerText(GenderPattern, texts[..i]))
      invariant ids == Flatten(PerText(AadhaarPattern, texts[..i]))
    {
      var text := texts[i];
      names := names + findNames(text);
      dobs := dobs + FindAll(DobPattern, text);
      genders := genders + FindAll(GenderPattern, text);
      ids := ids + FindAll(AadhaarPattern, text);
      assert NamesPerText(findNames, texts[..i + 1])[..i] == NamesPerText(findNames, texts[..i]);
      assert PerText(DobPattern, texts[..i + 1])[..i] == PerText(DobPattern, texts[..i]);
      assert PerText(GenderPattern, texts[..i + 1])[..i] == PerText(GenderPattern, texts[..i]);
      assert PerText(AadhaarPattern, texts[..i + 1])[..i] == PerText(AadhaarPattern, texts[..i]);
    }
    assert texts[..|texts|] == texts;
  }

  /**
   * Every collected date of birth has the shape `dd?mm?yyyy` (each `?` a
   * slash or a hyphen), since each is a match of the pattern of main.py:117.
   */
  lemma CollectedDobShape(texts: seq<string>, i: int)
    requires 0 <= i < |Flatten(PerText(DobPattern, texts))|
    ensures DobShape(Flatten(PerText(DobPattern, texts))[i])
  {
    var xss := PerText(DobPattern, texts);
    FlattenMember(xss, i);
    var k :| 0 <= k < |xss| && Flatten(xss)[i] in xss[k];
    var m :| 0 <= m < |xss[k]| && xss[k][m] == Flatten(xss)[i];
  }

  /**
   * The gender reported is the leftmost gender word of the first text that
   * contains one: text `k` is the first with a match, at position `j` first.
   */
  lemma FirstGenderFound(texts: seq<string>, k: int, j: nat)
    requires 0 <= k < |texts| && j < |texts[k]|
    requires forall m :: 0 <= m < k ==> FindAll(GenderPattern, texts[m]) == []
    requires MatchLen(GenderPattern, texts[k], j) > 0
    requires forall m :: 0 <= m < j ==> MatchLen(GenderPattern, texts[k], m) == 0
    ensures var genders := Flatten(PerText(GenderPattern, texts));
      genders != [] && genders[0] == texts[k][j..j + MatchLen(GenderPattern, texts[k], j)]
  {
    FindAllFromFirst(GenderPattern, texts[k], 0, j);
    FlattenFirst(PerText(GenderPattern, texts), k);
  }

  /** The same for the Aadhaar number. */
  lemma FirstAadhaarFound(texts: seq<string>, k: int, j: nat)
    requires 0 <= k < |texts| && j < |texts[k]|
    requires forall m :: 0 <= m < k ==> FindAll(AadhaarPattern, texts[m]) == []
    requires MatchLen(AadhaarPattern, texts[k], j) > 0
    requires forall m :: 0 <= m < j ==> MatchLen(AadhaarPattern, texts[k], m) == 0
    ensures var ids := Flatten(PerText(AadhaarPattern, texts));
      ids != [] && ids[0] == texts[k][j..j + MatchLen(AadhaarPattern, texts[k], j)]
  {
    FindAllFromFirst(AadhaarPattern, texts[k], 0, j);
    FlattenFirst(PerText(AadhaarPattern, texts), k);
  }

  /**
   * A text holding a whole gender word, date or number anywhere makes the
   * collected list of that field non-empty, so the field is reported.
   */
  lemma ShapeInSomeTextIsCollected(p: Pattern, texts: seq<string>, k: int, j: nat, m: nat)
    requires 0 <= k < |texts| && j + m <= |texts[k]| && Shape(p, texts[k][j..j + m])
    ensures Flatten(PerText(p, texts)) != []
  {
    FindAllFindsShape(p, texts[k], j, m);
    assert PerText(p, texts)[k] == FindAll(p, texts[k]);
    FlattenEmpty(PerText(p, texts));
  }

  // ---------------------------------------------------------------------
  // The name filter (main.py:136-142)
  // ---------------------------------------------------------------------

  /** `s.replace(" ", "")`: `s` with every space character removed. */
  function RemoveSpaces(s: string): (r: string)
    ensures ' ' !in r
    ensures forall c :: c in r <==> c in s && c != ' '
  {
    if s == [] then []
    else (if s[0] == ' ' then [] else [s[0]]) + RemoveSpaces(s[1..])
  }

  /** The length without spaces is the length minus the number of spaces. */
  lemma {:induction false} RemoveSpacesLength(s: string)
    ensures |RemoveSpaces(s)| == |s| - multiset(s)[' ']
  {
    if s != [] {
      RemoveSpacesLength(s[1..]);
      assert s == [s[0]] + s[1..];
      assert multiset(s) == multiset{s[0]} + multiset(s[1..]);
    }
  }

  /** A name match long enough to be printed: more than 10 characters besides spaces. */
  predicate IsLongName(name: string)
  {
    |RemoveSpaces(name)| > 10
  }

  /** The name matches that are printed, in the order found. */
  function LongNames(names: seq<string>): (r: seq<string>)
    ensures |r| <= |names|
    ensures forall x :: x in r <==> x in names && IsLongName(x)
  {
    if names == [] then []
    else (if IsLongName(names[0]) then [names[0]] else []) + LongNames(names[1..])
  }

  /** The filter keeps order and multiplicity: it works piece by piece. */
  lemma {:induction false} LongNamesAppend(a: seq<string>, b: seq<string>)
    ensures LongNames(a + b) == LongNames(a) + LongNames(b)
  {
    if a == [] {
      assert a + b == b;
    } else {
      assert (a + b)[1..] == a[1..] + b;
      LongNamesAppend(a[1..], b);
    }
  }

  // ---------------------------------------------------------------------
  // The date-of-birth check (main.py:146-159)
  // ---------------------------------------------------------------------

  /** What the date-of-birth branch does. */
  datatype DobCheck =
    | NoDobMatch                       // nothing printed
    | NoSlashDate                      // "No valid DOB found"
    | BadCalendarDate(text: string)    // strptime raises ValueError, which nothing catches
    | ValidDob(text: string, age: int) // "DOB:" and "Age:" printed

  /** The first match is stripped, searched for the slash form, and that found text is read day first. */
  function CheckFirstDob(first: string, today: Date): (r: DobCheck)
    ensures !r.NoDobMatch?
    ensures r.NoSlashDate? <==> Search(SlashDatePattern, Strip(first)).None?
    ensures r.ValidDob? || r.BadCalendarDate? ==> Search(SlashDatePattern, Strip(first)) == Some(r.text)
    ensures r.BadCalendarDate? ==> SlashDateShape(r.text) && !IsValidDate(Fields(r.text))
    ensures r.ValidDob? ==> SlashDateShape(r.text) && IsValidDate(Fields(r.text)) && r.age == Age(Fields(r.text), today)
  {
    match Search(SlashDatePattern, Strip(first))
    case None => NoSlashDate
    case Some(clean) =>
      match ParseDayFirst(clean)
      case Failure(_) => BadCalendarDate(clean)
      case Success(dob) => ValidDob(clean, Age(dob, today))
  }

  /** Only the first match is looked at, and only when there is one. */
  function CheckDob(dobs: seq<string>, today: Date): (r: DobCheck)
    ensures r.NoDobMatch? <==> dobs == []
  {
    if dobs == [] then NoDobMatch else CheckFirstDob(dobs[0], today)
  }

  /**
   * On a match of the pattern of main.py:117: a hyphen anywhere means no
   * valid date of birth; with two slashes the match is read day first, and
   * the program stops with an error if it names no date.
   */
  lemma CheckDobOfMatch(dobs: seq<string>, today: Date)
    requires dobs != [] && DobShape(dobs[0])
    ensures !(dobs[0][2] == '/' && dobs[0][5] == '/') ==> CheckDob(dobs, today) == NoSlashDate
    ensures dobs[0][2] == '/' && dobs[0][5] == '/' ==>
      CheckDob(dobs, today) ==
        if IsValidDate(Fields(dobs[0])) then ValidDob(dobs[0], Age(Fields(dobs[0]), today))
        else BadCalendarDate(dobs[0])
  {
    SlashCheckOfDobMatch(dobs[0]);
  }

  /**
   * For the dates actually collected from the recognised texts: the first one
   * has the `dd?mm?yyyy` shape, and a hyphen in it means no valid date of
   * birth, even when a later match has slashes.
   */
  lemma CollectedDobCheck(texts: seq<string>, today: Date)
    requires Flatten(PerText(DobPattern, texts)) != []
    ensures var t := Flatten(PerText(DobPattern, texts))[0];
      && DobShape(t)
      && (t[2] == '-' || t[5] == '-' ==> CheckDob(Flatten(PerText(DobPattern, texts)), today) == NoSlashDate)
  {
    var dobs := Flatten(PerText(DobPattern, texts));
    CollectedDobShape(texts, 0);
    CheckDobOfMatch(dobs, today);
  }

  /** Matches after the first one never influence the date-of-birth branch. */
  lemma CheckDobUsesFirstOnly(dobs: seq<string>, today: Date)
    requires dobs != []
    ensures CheckDob(dobs, today) == CheckDob([dobs[0]], today)
  {
  }

  // ---------------------------------------------------------------------
  // Reporting (main.py:134-167)
  // ---------------------------------------------------------------------

  /** One line of console output, in the order printed. */
  datatype Line =
    | NameLine(name: string)      // the name match itself
    | DobLine(dob: string)        // "DOB:" and the date text
    | AgeLine(age: int)           // "Age:" and the age
    | NoValidDob                  // "No valid DOB found"
    | GenderLine(gender: string)  // "Gender:" and the first gender match
    | AadhaarLine(number: string) // "Aadhaar Number:" and the first number match
    | ScanFailed                  // "Scan Failed. Please try again with a horizontal scan."

  /** The lines printed, and whether the uncaught date error ended the program after them. */
  datatype Outcome = Outcome(lines: seq<Line>, crashed: bool)

  function NameLines(names: seq<string>): seq<Line>
  {
    seq(|names|, i requires 0 <= i < |names| => NameLine(names[i]))
  }

  function DobLines(c: DobCheck): seq<Line>
  {
    match c
    case NoDobMatch => []
    case NoSlashDate => [NoValidDob]
    case BadCalendarDate(_) => []
    case ValidDob(text, age) => [DobLine(text), AgeLine(age)]
  }

  /** Some field was reported: the final value of the `found` flag. */
  predicate Found(longNames: seq<string>, c: DobCheck, genders: seq<string>, ids: seq<string>)
  {
    longNames != [] || c.ValidDob? || genders != [] || ids != []
  }

  function GenderLines(genders: seq<string>): seq<Line>
  {
    if genders == [] then [] else [GenderLine(genders[0])]
  }

  function AadhaarLines(ids: seq<string>): seq<Line>
  {
    if ids == [] then [] else [AadhaarLine(ids[0])]
  }

  function FailureLines(found: bool): seq<Line>
  {
    if found then [] else [ScanFailed]
  }

  /** What follows the names when the program does not stop: date of birth, gender, number, failure. */
  function FieldLines(c: DobCheck, genders: seq<string>, ids: seq<string>, found: bool): seq<Line>
  {
    DobLines(c) + GenderLines(genders) + AadhaarLines(ids) + FailureLines(found)
  }

  /** The output, from the printed names, the date-of-birth outcome and the other two match lists. */
  function Assemble(longNames: seq<string>, c: DobCheck, genders: seq<string>, ids: seq<string>): (r: Outcome)
    ensures r.crashed <==> c.BadCalendarDate?
    ensures NameLines(longNames) <= r.lines
    ensures r.crashed ==> r.lines == NameLines(longNames)
  {
    var nameLines := NameLines(longNames);
    if c.BadCalendarDate? then Outcome(nameLines, true)
    else Outcome(nameLines + FieldLines(c, genders, ids, Found(longNames, c, genders, ids)), false)
  }

  /** The whole output of the reporting block, from the four match lists. */
  function Report(names: seq<string>, dobs: seq<string>, genders: seq<string>, ids: seq<string>, today: Date): (r: Outcome)
    ensures NameLines(LongNames(names)) <= r.lines
  {
    Assemble(LongNames(names), CheckDob(dobs, today), genders, ids)
  }

  /** main.py:136-142: print each name match with more than 10 non-space characters. */
  method PrintLongNames(names: seq<string>) returns (out: seq<Line>, found: bool)
    ensures out == NameLines(LongNames(names))
    ensures found <==> LongNames(names) != []
    ensures found <==> exists x :: x in names && IsLongName(x)
  {
    out, found := [], false;
    var n := |names|;
    for i := 0 to n
      invariant out == NameLines(LongNames(names[..i]))
      invariant found <==> LongNames(names[..i]) != []
    {
      NextLongNames(names, i);
      if |RemoveSpaces(names[i])| > 10 {
        out := out + [NameLine(names[i])];
        found := true;
      }
    }
    assert names[..n] == names;
    LongNamesEmpty(names);
  }

  /** One more name match: it is printed after the earlier ones when it is long enough. */
  lemma NextLongNames(names: seq<string>, i: nat)
    requires i < |names|
    ensures LongNames(names[..i + 1]) == LongNames(names[..i]) + (if IsLongName(names[i]) then [names[i]] else [])
    ensures NameLines(LongNames(names[..i + 1])) ==
      NameLines(LongNames(names[..i])) + (if IsLongName(names[i]) then [NameLine(names[i])] else [])
  {
    var prefix := names[..i];
    assert names[..i + 1] == prefix + [names[i]];
    LongNamesAppend(prefix, [names[i]]);
    assert LongNames([names[i]]) == if IsLongName(names[i]) then [names[i]] else [] by {
      assert [names[i]][1..] == [];
    }
  }

  /** Nothing is printed exactly when no name match is long enough. */
  lemma LongNamesEmpty(names: seq<string>)
    ensures LongNames(names) == [] <==> forall x :: x in names ==> !IsLongName(x)
  {
    if LongNames(names) != [] {
      assert LongNames(names)[0] in LongNames(names);
    }
  }

  /**
   * main.py:146-159: the date-of-birth branch. It works out which outcome the
   * first match leads to, then prints the date and its age (setting `found`),
   * "No valid DOB found", nothing, or stops the program.
   */
  method PrintDob(dobs: seq<string>, today: Date) returns (lines: seq<Line>, valid: bool, crashed: bool)
    ensures crashed <==> CheckDob(dobs, today).BadCalendarDate?
    ensures valid <==> CheckDob(dobs, today).ValidDob?
    ensures lines == DobLines(CheckDob(dobs, today))
  {
    var c := NoDobMatch;
    if dobs != [] {
      var dobStr := Strip(dobs[0]);
      var m := Search(SlashDatePattern, dobStr);
      if m.Some? {
        var dobClean := m.value;
        var parsed := ParseDayFirst(dobClean);
        if parsed.Failure? {
          c := BadCalendarDate(dobClean);
        } else {
          c := ValidDob(dobClean, Age(parsed.value, today));
        }
      } else {
        c := NoSlashDate;
      }
    }
    assert c == CheckDob(dobs, today);
    lines, valid, crashed := DobLines(c), c.ValidDob?, c.BadCalendarDate?;
  }

  /**
   * main.py:134-167, statement by statement: the `found` flag starts false
   * and each branch that prints a field sets it.
   */
  method ReportFields(names: seq<string>, dobs: seq<string>, genders: seq<string>, ids: seq<string>, today: Date)
    returns (out: seq<Line>, crashed: bool)
    ensures Outcome(out, crashed) == Report(names, dobs, genders, ids, today)
  {
    var nameLines, found := [], false;
    if names != [] {
      nameLines, found := PrintLongNames(names);
    }
    assert nameLines == NameLines(LongNames(names)) && (found <==> LongNames(names) != []);
    var rest, valid;
    rest, valid, crashed := PrintDob(dobs, today);
    if crashed {
      out := nameLines;
      return;
    }
    ghost var dobLines := rest;
    found := found || valid;
    if genders != [] {
      rest := rest + [GenderLine(genders[0])];
      found := true;
    }
    assert rest == dobLines + GenderLines(genders);
    if ids != [] {
      rest := rest + [AadhaarLine(ids[0])];
      found := true;
    }
    assert rest == dobLines + GenderLines(genders) + AadhaarLines(ids);
    assert found == Found(LongNames(names), CheckDob(dobs, today), genders, ids);
    if !found {
      rest := rest + [ScanFailed];
    }
    assert rest == FieldLines(CheckDob(dobs, today), genders, ids, found);
    out := nameLines + rest;
  }

  /** The name lines print exactly the given names. */
  lemma NameLinesMember(s: seq<string>, x: string)
    ensures NameLine(x) in NameLines(s) <==> x in s
  {
    if NameLine(x) in NameLines(s) {
      var i :| 0 <= i < |s| && NameLines(s)[i] == NameLine(x);
    }
    if x in s {
      var i :| 0 <= i < |s| && s[i] == x;
      assert NameLines(s)[i] == NameLine(x);
    }
  }

  /**
   * Lines of each kind in the fields part: no names, the date and its age for
   * a valid date, "No valid DOB found" for a first match without the slash
   * form, at most one gender, one number and one failure message.
   */
  lemma FieldLinesMember(c: DobCheck, genders: seq<string>, ids: seq<string>, found: bool, l: Line)
    ensures l.NameLine? ==> l !in FieldLines(c, genders, ids, found)
    ensures l.GenderLine? ==> (l in FieldLines(c, genders, ids, found) <==> genders != [] && l.gender == genders[0])
    ensures l.AadhaarLine? ==> (l in FieldLines(c, genders, ids, found) <==> ids != [] && l.number == ids[0])
    ensures l.DobLine? ==> (l in FieldLines(c, genders, ids, found) <==> c.ValidDob? && c.text == l.dob)
    ensures l.AgeLine? ==> (l in FieldLines(c, genders, ids, found) <==> c.ValidDob? && c.age == l.age)
    ensures l.NoValidDob? ==> (l in FieldLines(c, genders, ids, found) <==> c.NoSlashDate?)
    ensures l.ScanFailed? ==> (l in FieldLines(c, genders, ids, found) <==> !found)
  {
    assert FieldLines(c, genders, ids, found) == DobLines(c) + GenderLines(genders) + AadhaarLines(ids) + FailureLines(found);
  }

  /** Every name match with more than 10 non-space characters is printed, and no other name. */
  lemma ReportNames(names: seq<string>, dobs: seq<string>, genders: seq<string>, ids: seq<string>, today: Date, x: string)
    ensures NameLine(x) in Report(names, dobs, genders, ids, today).lines <==> x in names && IsLongName(x)
  {
    var longNames, c := LongNames(names), CheckDob(dobs, today);
    NameLinesMember(longNames, x);
    FieldLinesMember(c, genders, ids, Found(longNames, c, genders, ids), NameLine(x));
  }

  /** The program stops exactly when the first date match has slashes but names no date. */
  lemma ReportCrash(names: seq<string>, dobs: seq<string>, genders: seq<string>, ids: seq<string>, today: Date)
    ensures Report(names, dobs, genders, ids, today).crashed <==> CheckDob(dobs, today).BadCalendarDate?
    ensures Report(names, dobs, genders, ids, today).crashed ==>
      Report(names, dobs, genders, ids, today).lines == NameLines(LongNames(names))
  {
  }

  /**
   * The failure message is printed exactly when the program did not stop and
   * nothing was reported: no long name, no valid date of birth, no gender and
   * no Aadhaar number.
   */
  lemma ReportFailureMessage(names: seq<string>, dobs: seq<string>, genders: seq<string>, ids: seq<string>, today: Date)
    ensures ScanFailed in Report(names, dobs, genders, ids, today).lines <==>
      && !CheckDob(dobs, today).BadCalendarDate?
      && (forall x :: x in names ==> !IsLongName(x))
      && !CheckDob(dobs, today).ValidDob?
      && genders == [] && ids == []
  {
    var longNames, c := LongNames(names), CheckDob(dobs, today);
    assert ScanFailed !in NameLines(longNames);
    FieldLinesMember(c, genders, ids, Found(longNames, c, genders, ids), ScanFailed);
    LongNamesEmpty(names);
  }

  /** Only the first gender match is printed, and it is printed whenever there is one. */
  lemma ReportGender(names: seq<string>, dobs: seq<string>, genders: seq<string>, ids: seq<string>, today: Date, g: string)
    requires !CheckDob(dobs, today).BadCalendarDate?
    ensures GenderLine(g) in Report(names, dobs, genders, ids, today).lines <==> genders != [] && g == genders[0]
  {
    var longNames, c := LongNames(names), CheckDob(dobs, today);
    assert GenderLine(g) !in NameLines(longNames);
    FieldLinesMember(c, genders, ids, Found(longNames, c, genders, ids), GenderLine(g));
  }

  /** Only the first Aadhaar number match is printed, and it is printed whenever there is one. */
  lemma ReportAadhaar(names: seq<string>, dobs: seq<string>, genders: seq<string>, ids: seq<string>, today: Date, a: string)
    requires !CheckDob(dobs, today).BadCalendarDate?
    ensures AadhaarLine(a) in Report(names, dobs, genders, ids, today).lines <==> ids != [] && a == ids[0]
  {
    var longNames, c := LongNames(names), CheckDob(dobs, today);
    assert AadhaarLine(a) !in NameLines(longNames);
    FieldLinesMember(c, genders, ids, Found(longNames, c, genders, ids), AadhaarLine(a));
  }

  /** An age is printed exactly when the first date match is a valid slash date, and it is that date's age. */
  lemma ReportAge(names: seq<string>, dobs: seq<string>, genders: seq<string>, ids: seq<string>, today: Date, a: int)
    ensures AgeLine(a) in Report(names, dobs, genders, ids, today).lines <==>
      CheckDob(dobs, today).ValidDob? && CheckDob(dobs, today).age == a
  {
    var longNames, c := LongNames(names), CheckDob(dobs, today);
    assert AgeLine(a) !in NameLines(longNames);
    FieldLinesMember(c, genders, ids, Found(longNames, c, genders, ids), AgeLine(a));
  }

  /** The date printed is the slash date found in the first match, exactly when it names a valid date. */
  lemma ReportDob(names: seq<string>, dobs: seq<string>, genders: seq<string>, ids: seq<string>, today: Date, d: string)
    ensures DobLine(d) in Report(names, dobs, genders, ids, today).lines <==>
      CheckDob(dobs, today).ValidDob? && CheckDob(dobs, today).text == d
  {
    var longNames, c := LongNames(names), CheckDob(dobs, today);
    assert DobLine(d) !in NameLines(longNames);
    FieldLinesMember(c, genders, ids, Found(longNames, c, genders, ids), DobLine(d));
  }

  /** "No valid DOB found" is printed exactly when the first date match has no slash form once stripped. */
  lemma ReportNoValidDob(names: seq<string>, dobs: seq<string>, genders: seq<string>, ids: seq<string>, today: Date)
    ensures NoValidDob in Report(names, dobs, genders, ids, today).lines <==> CheckDob(dobs, today).NoSlashDate?
  {
    var longNames, c := LongNames(names), CheckDob(dobs, today);
    assert NoValidDob !in NameLines(longNames);
    FieldLinesMember(c, genders, ids, Found(longNames, c, genders, ids), NoValidDob);
  }

  // ---------------------------------------------------------------------
  // The scan counter (main.py:22, 103, 169)
  // ---------------------------------------------------------------------

  /** The state kept across frames: the number of completed scans, used to name the saved image. */
  class Session {
    var count: nat

    constructor ()
      ensures count == 0
    {
      count := 0;
    }

    /**
     * One press of `s`: the image is saved under the current count, the
     * texts are recognised and reported, and the count goes up, unless the
     * date error stopped the program first.
     */
    method Scan(texts: seq<string>, findNames: string -> seq<string>, today: Date)
      returns (saved: nat, out: seq<Line>, crashed: bool)
      modifies this
      ensures saved == old(count)
      ensures count == if crashed then old(count) else old(count) + 1
      ensures Outcome(out, crashed) == Report(
        Flatten(NamesPerText(findNames, texts)), Flatten(PerText(DobPattern, texts)),
        Flatten(PerText(GenderPattern, texts)), Flatten(PerText(AadhaarPattern, texts)), today)
    {
      saved := count;
      var names, dobs, genders, ids := Accumulate(texts, findNames);
      out, crashed := ReportFields(names, dobs, genders, ids, today);
      if !crashed {
        count := count + 1;
      }
    }
  }
}

/** Digest access authentication, section 3.2.2 of RFC 2617: parseChallenge, formResponse and buildSignature of
    pkg/httpproxy/sign.go. */
module Digest {
  import opened Basics
  import opened Text

  const SEPARATOR := ", "

  const SPACE: set<char> := {' ', '\n', '\r', '\t'}

  const QUOTE: set<char> := {'"'}

  type Values = map<string, string>

  function TrimLeft(s: string, cut: set<char>): string {
    if s != "" && s[0] in cut then TrimLeft(s[1..], cut) else s
  }

  function TrimRight(s: string, cut: set<char>): string {
    if s != "" && s[|s| - 1] in cut then TrimRight(s[..|s| - 1], cut) else s
  }

  function Trim(s: string, cut: set<char>): string {
    TrimRight(TrimLeft(s, cut), cut)
  }

  /** Neither the first nor the last character is cut. */
  predicate Trimmed(s: string, cut: set<char>) {
    s == "" || (s[0] !in cut && s[|s| - 1] !in cut)
  }

  /** What parsing a header comes to. A term without an equals sign is indexed out of range. */
  datatype Challenge = Data(values: Values) | Refused | OutOfRange

  /** The terms read from the left; a later term replaces an earlier one of the same key. */
  function ReadTerms(terms: seq<string>): Option<Values> {
    if terms == [] then Some(map[])
    else
      var before, term := ReadTerms(terms[..|terms| - 1]), terms[|terms| - 1];
      match Find(term, "=")
      case None => None
      case Some(i) => if before.None? then None else Some(before.value[term[..i] := Trim(term[i + 1..], QUOTE)])
  }

  function ReadBody(body: string): Challenge {
    match ReadTerms(Split(body, SEPARATOR)) case None => OutOfRange case Some(values) => Data(values)
  }

  function Read(header: string): Challenge {
    var s := Trim(header, SPACE);
    if header == "" || !HasPrefix(s, "Digest ") then Refused
    else ReadBody(Trim(s[7..], SPACE))
  }

  /** Some term has no equals sign. */
  ghost predicate LacksEquals(terms: seq<string>) {
    exists i :: 0 <= i < |terms| && Find(terms[i], "=").None?
  }

  lemma {:induction false} ReadFailsExactly(terms: seq<string>)
    ensures ReadTerms(terms).None? <==> LacksEquals(terms)
  {
    if terms != [] {
      var k := |terms| - 1;
      ReadFailsExactly(terms[..k]);
      assert forall i :: 0 <= i < k ==> terms[..k][i] == terms[i];
    }
  }

  /** The loop over the terms. */
  method ParseTerms(terms: seq<string>) returns (r: Option<Values>)
    ensures r == ReadTerms(terms)
  {
    var data: Values := map[];
    for i := 0 to |terms|
      invariant ReadTerms(terms[..i]) == Some(data)
    {
      assert terms[..i + 1][..i] == terms[..i];
      var equals := Find(terms[i], "=");
      if equals.None? {
        ReadFailsExactly(terms);
        return None;
      }
      data := data[terms[i][..equals.value] := Trim(terms[i][equals.value + 1..], QUOTE)];
    }
    assert terms[..|terms|] == terms;
    return Some(data);
  }

  method ParseChallenge(header: string) returns (r: Challenge)
    ensures r == Read(header)
  {
    if header == "" {
      return Refused;
    }
    var s := Trim(header, SPACE);
    if !HasPrefix(s, "Digest ") {
      return Refused;
    }
    var data := ParseTerms(Split(Trim(s[7..], SPACE), SEPARATOR));
    return if data.None? then OutOfRange else Data(data.value);
  }

  /** The index runs out of range exactly for a header with the scheme's prefix in which some term has no equals
      sign. */
  lemma OutOfRangeExactly(header: string)
    ensures var s := Trim(header, SPACE);
            Read(header).OutOfRange? <==>
            header != "" && HasPrefix(s, "Digest ") && LacksEquals(Split(Trim(s[7..], SPACE), SEPARATOR))
  {
    var s := Trim(header, SPACE);
    if HasPrefix(s, "Digest ") {
      ReadFailsExactly(Split(Trim(s[7..], SPACE), SEPARATOR));
    }
  }

  /** One name and value of the header as it is printed. */
  datatype Field = Field(key: string, value: string, quoted: bool) {
    function Text(): string {
      key + "=" + (if quoted then "\"" + value + "\"" else value)
    }
  }

  function Texts(fields: seq<Field>): seq<string> {
    seq(|fields|, i requires 0 <= i < |fields| => fields[i].Text())
  }

  ghost function ValuesOf(fields: seq<Field>): Values {
    if fields == []
      then map[] else ValuesOf(fields[..|fields| - 1])[fields[|fields| - 1].key := fields[|fields| - 1].value]
  }

  predicate GoodKey(key: string) {
    key != "" && forall i :: 0 <= i < |key| ==> 'a' <= key[i] <= 'z'
  }

  ghost predicate GoodKeys(fields: seq<Field>) {
    && (forall i :: 0 <= i < |fields| ==> GoodKey(fields[i].key))
    && (forall i, j :: 0 <= i < j < |fields| ==> fields[i].key != fields[j].key)
  }

  /** A value that survives: it holds no separator and no quote at either end. */
  predicate CleanValue(value: string) {
    !Contains(value, SEPARATOR) && Trimmed(value, QUOTE)
  }

  /** The values survive, and an unquoted last one does not end in white space. */
  ghost predicate Clean(fields: seq<Field>)
    requires fields != []
  {
    && (forall i :: 0 <= i < |fields| ==> CleanValue(fields[i].value))
    && (var last := fields[|fields| - 1]; last.quoted || last.value == "" || last.value[|last.value| - 1] !in SPACE)
  }

  // Trimming.

  lemma {:induction false} TrimLeftIs(s: string, cut: set<char>)
    ensures |TrimLeft(s, cut)| <= |s| && TrimLeft(s, cut) == s[|s| - |TrimLeft(s, cut)|..]
    ensures TrimLeft(s, cut) == "" || TrimLeft(s, cut)[0] !in cut
  {
    if s != "" && s[0] in cut {
      TrimLeftIs(s[1..], cut);
    }
  }

  lemma {:induction false} TrimRightIs(s: string, cut: set<char>)
    ensures TrimRight(s, cut) <= s
    ensures TrimRight(s, cut) == "" || TrimRight(s, cut)[|TrimRight(s, cut)| - 1] !in cut
  {
    if s != "" && s[|s| - 1] in cut {
      TrimRightIs(s[..|s| - 1], cut);
    }
  }

  /** What is trimmed is a part of the string, with nothing more to trim. */
  lemma TrimIs(s: string, cut: set<char>) returns (i: nat)
    ensures Trimmed(Trim(s, cut), cut)
    ensures i + |Trim(s, cut)| <= |s| && Trim(s, cut) == s[i..i + |Trim(s, cut)|]
  {
    TrimLeftIs(s, cut);
    TrimRightIs(TrimLeft(s, cut), cut);
    i := |s| - |TrimLeft(s, cut)|;
    assert Trim(s, cut) == s[i..i + |Trim(s, cut)|];
  }

  lemma {:induction false} TrimRightAfter(a: string, b: string, cut: set<char>)
    requires a != "" && a[|a| - 1] !in cut
    ensures TrimRight(a + b, cut) == a + TrimRight(b, cut)
    decreases |b|
  {
    if b == "" {
      assert a + b == a;
    } else {
      var k := |b| - 1;
      assert (a + b)[..|a + b| - 1] == a + b[..k];
      TrimRightAfter(a, b[..k], cut);
    }
  }

  /** Quotes around a value that has none at its ends are trimmed away. */
  lemma TrimQuotes(value: string)
    requires Trimmed(value, QUOTE)
    ensures Trim("\"" + value + "\"", QUOTE) == value
    ensures Trim(value, QUOTE) == value
  {
    var quoted := "\"" + value + "\"";
    assert quoted[1..] == value + "\"";
    if value == "" {
      assert quoted[1..][1..] == "";
      assert TrimLeft(quoted[1..], QUOTE) == "";
    } else {
      TrimRightAfter(value, "\"", QUOTE);
      assert "\""[..0] == "";
    }
  }

  // Splitting.

  lemma SliceSlice(s: string, i: nat, j: nat, k: nat, n: nat)
    requires i <= j <= |s| && k + n <= j - i
    ensures s[i..j][k..k + n] == s[i + k..i + k + n]
  {
    var part, whole := s[i..j][k..k + n], s[i + k..i + k + n];
    assert forall m :: 0 <= m < n ==> part[m] == s[i..j][k + m] == s[i + k + m] == whole[m];
  }

  lemma PartFree(s: string, sep: string, i: nat, j: nat)
    requires i <= j <= |s| && !Contains(s, sep)
    ensures !Contains(s[i..j], sep)
  {
    if Contains(s[i..j], sep) {
      FindIs(s[i..j], sep);
      var k := Find(s[i..j], sep).value;
      SliceSlice(s, i, j, k, |sep|);
      FindIsFirst(s, sep, i + k);
    }
  }

  /** The parts of a split string do not hold the separator. */
  lemma {:induction false} SplitPartsFree(s: string)
    ensures forall part :: part in Split(s, SEPARATOR) ==> !Contains(part, SEPARATOR)
    decreases |s|
  {
    match Find(s, SEPARATOR) {
      case None =>
      case Some(i) =>
        if Contains(s[..i], SEPARATOR) {
          FindIs(s[..i], SEPARATOR);
          var k := Find(s[..i], SEPARATOR).value;
          SliceSlice(s, 0, i, k, 2);
          assert s[0..i] == s[..i];
          FindIsFirst(s, SEPARATOR, k);
        }
        SplitPartsFree(s[i + 2..]);
    }
  }

  predicate SeparatorAt(s: string, i: int) {
    0 <= i && i + 1 < |s| && s[i] == ',' && s[i + 1] == ' '
  }

  lemma FoundAt(s: string)
    requires Contains(s, SEPARATOR)
    ensures SeparatorAt(s, Find(s, SEPARATOR).value)
  {
    FindIs(s, SEPARATOR);
    var i := Find(s, SEPARATOR).value;
    assert s[i] == s[i..i + 2][0] && s[i + 1] == s[i..i + 2][1];
  }

  lemma AtFound(s: string, i: nat)
    requires SeparatorAt(s, i)
    ensures Contains(s, SEPARATOR) && Find(s, SEPARATOR).value <= i
  {
    assert s[i..i + 2] == SEPARATOR;
    FindIsFirst(s, SEPARATOR, i);
  }

  lemma NoneBefore(a: string, b: string, at: nat, i: nat)
    requires at == if Contains(a, SEPARATOR) then Find(a, SEPARATOR).value else |a|
    requires SeparatorAt(a + SEPARATOR + b, i) && i <= at
    ensures i == at
  {
    if i < at {
      assert SeparatorAt(a, i);
      AtFound(a, i);
    }
  }

  /** Where the separator is first found when a part is appended. */
  lemma FindAppend(a: string, b: string)
    ensures Find(a + SEPARATOR + b, SEPARATOR) == Some(if Contains(a, SEPARATOR) then Find(a, SEPARATOR).value else |a|)
  {
    var s := a + SEPARATOR + b;
    var at := if Contains(a, SEPARATOR) then Find(a, SEPARATOR).value else |a|;
    if Contains(a, SEPARATOR) {
      FoundAt(a);
    }
    AtFound(s, at);
    FoundAt(s);
    NoneBefore(a, b, at, Find(s, SEPARATOR).value);
  }

  lemma SplitAppendFirst(a: string, b: string)
    requires !Contains(a, SEPARATOR) && !Contains(b, SEPARATOR)
    ensures Split(a + SEPARATOR + b, SEPARATOR) == [a] + [b]
  {
    var s := a + SEPARATOR + b;
    FindAppend(a, b);
    SplitFound(s, SEPARATOR, |a|);
    assert s[|a| + 2..] == b && s[..|a|] == a;
  }

  lemma {:induction false} SplitAppend(a: string, b: string)
    requires !Contains(b, SEPARATOR)
    ensures Split(a + SEPARATOR + b, SEPARATOR) == Split(a, SEPARATOR) + [b]
    decreases |a|
  {
    if Contains(a, SEPARATOR) {
      var s, i := a + SEPARATOR + b, Find(a, SEPARATOR).value;
      var rest := a[i + 2..];
      FindAppend(a, b);
      SplitFound(s, SEPARATOR, i);
      SplitFound(a, SEPARATOR, i);
      assert s[i + 2..] == rest + SEPARATOR + b && s[..i] == a[..i];
      SplitAppend(rest, b);
      assert [a[..i]] + (Split(rest, SEPARATOR) + [b]) == [a[..i]] + Split(rest, SEPARATOR) + [b];
    } else {
      SplitAppendFirst(a, b);
    }
  }

  lemma {:induction false} JoinAppend(parts: seq<string>, last: string)
    requires parts != []
    ensures Join(parts + [last], SEPARATOR) == Join(parts, SEPARATOR) + SEPARATOR + last
  {
    assert (parts + [last])[1..] == parts[1..] + [last];
    if |parts| == 1 {
      assert parts[1..] + [last] == [last];
    } else {
      JoinAppend(parts[1..], last);
    }
  }

  /** Parts without the separator are what joining and splitting gives back. */
  lemma {:induction false} SplitJoin(parts: seq<string>)
    requires parts != [] && forall part :: part in parts ==> !Contains(part, SEPARATOR)
    ensures Split(Join(parts, SEPARATOR), SEPARATOR) == parts
  {
    var k := |parts| - 1;
    assert parts == parts[..k] + [parts[k]];
    if k > 0 {
      SplitJoin(parts[..k]);
      JoinAppend(parts[..k], parts[k]);
      SplitAppend(Join(parts[..k], SEPARATOR), parts[k]);
    }
  }

  /** And no other parts are. */
  lemma SplitJoinExactly(parts: seq<string>)
    ensures Split(Join(parts, SEPARATOR), SEPARATOR) == parts <==>
            parts != [] && forall part :: part in parts ==> !Contains(part, SEPARATOR)
  {
    SplitPartsFree(Join(parts, SEPARATOR));
    if parts != [] && forall part :: part in parts ==> !Contains(part, SEPARATOR) {
      SplitJoin(parts);
    }
  }

  // Printed fields.

  lemma FindKey(key: string, rest: string)
    requires GoodKey(key)
    ensures Find(key + "=" + rest, "=") == Some(|key|)
  {
    var s := key + "=" + rest;
    assert s[|key|..|key| + 1] == "=";
    FindIsFirst(s, "=", |key|);
    FindIs(s, "=");
    var i := Find(s, "=").value;
    assert s[i] == s[i..i + 1][0];
    assert forall j :: 0 <= j < |key| ==> s[j] == key[j];
  }

  /** A separator in the printed field lies within its value. */
  lemma SeparatorInValue(f: Field, i: nat)
    requires GoodKey(f.key) && SeparatorAt(f.Text(), i)
    ensures SeparatorAt(f.value, i - |f.key| - (if f.quoted then 2 else 1))
  {
    assert forall j :: 0 <= j < |f.key| ==> f.Text()[j] == f.key[j];
  }

  lemma TextFree(f: Field)
    requires GoodKey(f.key) && !Contains(f.value, SEPARATOR)
    ensures !Contains(f.Text(), SEPARATOR)
  {
    if Contains(f.Text(), SEPARATOR) {
      FoundAt(f.Text());
      var i := Find(f.Text(), SEPARATOR).value;
      SeparatorInValue(f, i);
      AtFound(f.value, i - |f.key| - if f.quoted then 2 else 1);
    }
  }

  /** Reading the printed fields gives their values. */
  lemma {:induction false} ReadTexts(fields: seq<Field>)
    requires forall i :: 0 <= i < |fields| ==> GoodKey(fields[i].key) && CleanValue(fields[i].value)
    ensures ReadTerms(Texts(fields)) == Some(ValuesOf(fields))
  {
    if fields != [] {
      var k := |fields| - 1;
      var f := fields[k];
      ReadTexts(fields[..k]);
      assert Texts(fields)[..k] == Texts(fields[..k]);
      var rest := if f.quoted then "\"" + f.value + "\"" else f.value;
      FindKey(f.key, rest);
      assert f.Text()[..|f.key|] == f.key && f.Text()[|f.key| + 1..] == rest;
      TrimQuotes(f.value);
    }
  }

  lemma {:induction false} ValuesOfAt(fields: seq<Field>, i: nat)
    requires GoodKeys(fields) && i < |fields|
    ensures fields[i].key in ValuesOf(fields) && ValuesOf(fields)[fields[i].key] == fields[i].value
  {
    if i < |fields| - 1 {
      ValuesOfAt(fields[..|fields| - 1], i);
    }
  }

  /** Whatever is read has survived. */
  lemma {:induction false} ReadIsClean(terms: seq<string>, key: string)
    requires forall term :: term in terms ==> !Contains(term, SEPARATOR)
    ensures ReadTerms(terms).Some? && key in ReadTerms(terms).value ==> CleanValue(ReadTerms(terms).value[key])
  {
    if terms != [] {
      var k := |terms| - 1;
      ReadIsClean(terms[..k], key);
      if Find(terms[k], "=").Some? {
        var i := Find(terms[k], "=").value;
        var rest := terms[k][i + 1..];
        assert rest == terms[k][i + 1..|terms[k]|];
        PartFree(terms[k], SEPARATOR, i + 1, |terms[k]|);
        var j := TrimIs(rest, QUOTE);
        PartFree(rest, SEPARATOR, j, j + |Trim(rest, QUOTE)|);
      }
    }
  }

  // The header.

  /** The fields as they arrive: white space at the end of the header is trimmed. */
  function Received(fields: seq<Field>): seq<Field>
    requires fields != []
  {
    var last := fields[|fields| - 1];
    if last.quoted then fields else fields[..|fields| - 1] + [last.(value := TrimRight(last.value, SPACE))]
  }

  /** All of the joined fields up to the value of the last one. */
  ghost function Lead(fields: seq<Field>): string
    requires fields != []
  {
    var k := |fields| - 1;
    (if k == 0 then "" else Join(Texts(fields[..k]), SEPARATOR) + SEPARATOR) + fields[k].key + "="
  }

  ghost function LastValue(f: Field): string {
    if f.quoted then "\"" + f.value + "\"" else f.value
  }

  lemma JoinLast(fields: seq<Field>)
    requires fields != []
    ensures Join(Texts(fields), SEPARATOR) == Lead(fields) + LastValue(fields[|fields| - 1])
  {
    var k := |fields| - 1;
    assert Texts(fields) == Texts(fields[..k]) + [fields[k].Text()];
    if k > 0 {
      JoinAppend(Texts(fields[..k]), fields[k].Text());
    }
    assert Lead(fields) + LastValue(fields[k]) ==
           (if k == 0 then "" else Join(Texts(fields[..k]), SEPARATOR) + SEPARATOR) + fields[k].Text();
  }

  lemma LeadStarts(fields: seq<Field>)
    requires fields != [] && GoodKeys(fields)
    ensures Lead(fields) != "" && Lead(fields)[0] !in SPACE && Lead(fields)[|Lead(fields)| - 1] == '='
  {
    assert fields[0].Text()[0] == fields[0].key[0];
    if |fields| > 1 {
      var parts := Texts(fields[..|fields| - 1]);
      assert parts[0] == fields[0].Text();
      assert Join(parts, SEPARATOR)[0] == parts[0][0];
    }
  }

  lemma ReceivedJoin(fields: seq<Field>)
    requires fields != []
    ensures Join(Texts(Received(fields)), SEPARATOR) == Lead(fields) + TrimRight(LastValue(fields[|fields| - 1]), SPACE)
  {
    JoinLast(Received(fields));
    assert Received(fields)[..|fields| - 1] == fields[..|fields| - 1];
  }

  lemma TrimLeftNone(s: string, cut: set<char>)
    requires s != "" && s[0] !in cut
    ensures Trim(s, cut) == TrimRight(s, cut)
  {
  }

  lemma Associative(a: string, b: string, c: string)
    ensures a + (b + c) == a + b + c
  {
  }

  lemma HeaderTrimmed(scheme: string, lead: string, value: string)
    requires scheme != "" && scheme[0] !in SPACE && lead != "" && lead[|lead| - 1] !in SPACE
    ensures Trim(scheme + (lead + value), SPACE) == scheme + (lead + TrimRight(value, SPACE))
  {
    TrimLeftNone(scheme + (lead + value), SPACE);
    Associative(scheme, lead, value);
    TrimRightAfter(scheme + lead, value, SPACE);
    Associative(scheme, lead, TrimRight(value, SPACE));
  }

  lemma BodyTrimmed(lead: string, value: string)
    requires lead != "" && lead[0] !in SPACE && lead[|lead| - 1] !in SPACE
    ensures Trim(lead + TrimRight(value, SPACE), SPACE) == lead + TrimRight(value, SPACE)
  {
    var left := TrimRight(value, SPACE);
    TrimLeftNone(lead + left, SPACE);
    TrimRightAfter(lead, left, SPACE);
    TrimRightIs(value, SPACE);
  }

  /** White space at the end of a header is dropped. */
  lemma HeaderRead(lead: string, value: string)
    requires lead != "" && lead[0] !in SPACE && lead[|lead| - 1] !in SPACE
    ensures Read("Digest " + (lead + value)) == ReadBody(lead + TrimRight(value, SPACE))
  {
    var header, left := "Digest " + (lead + value), TrimRight(value, SPACE);
    HeaderTrimmed("Digest ", lead, value);
    var s := Trim(header, SPACE);
    assert s[7..] == lead + left;
    assert HasPrefix(s, "Digest ");
    BodyTrimmed(lead, value);
  }

  lemma CleanIsRead(fields: seq<Field>)
    requires fields != [] && GoodKeys(fields) && Clean(fields)
    ensures ReadBody(Join(Texts(Received(fields)), SEPARATOR)) == Data(ValuesOf(fields))
  {
    assert Received(fields) == fields;
    forall text | text in Texts(fields) ensures !Contains(text, SEPARATOR) {
      var i :| 0 <= i < |fields| && text == fields[i].Text();
      TextFree(fields[i]);
    }
    SplitJoin(Texts(fields));
    ReadTexts(fields);
  }

  /** The last term is the last field as it arrives. */
  lemma LastTerm(fields: seq<Field>)
    requires fields != [] && GoodKeys(fields)
    requires !Contains(fields[|fields| - 1].value, SEPARATOR)
    ensures var terms := Split(Join(Texts(fields), SEPARATOR), SEPARATOR);
            terms[|terms| - 1] == fields[|fields| - 1].Text()
  {
    var k := |fields| - 1;
    var parts := Texts(fields[..k]);
    TextFree(fields[k]);
    assert Texts(fields) == parts + [fields[k].Text()];
    if k > 0 {
      JoinAppend(parts, fields[k].Text());
      SplitAppend(Join(parts, SEPARATOR), fields[k].Text());
    }
  }

  /** An unquoted last value is read as it arrives, with quotes trimmed. */
  lemma LastRead(terms: seq<string>, f: Field)
    requires terms != [] && terms[|terms| - 1] == f.Text() && GoodKey(f.key) && !f.quoted
    ensures ReadTerms(terms).Some? ==> f.key in ReadTerms(terms).value && |ReadTerms(terms).value[f.key]| <= |f.value|
  {
    FindKey(f.key, f.value);
    assert f.Text()[..|f.key|] == f.key && f.Text()[|f.key| + 1..] == f.value;
    var _ := TrimIs(f.value, QUOTE);
  }

  /** The trimmed value holds no separator where the value holds none. */
  lemma TrimmedFree(value: string)
    requires !Contains(value, SEPARATOR)
    ensures !Contains(TrimRight(value, SPACE), SEPARATOR)
  {
    TrimRightIs(value, SPACE);
    var left := TrimRight(value, SPACE);
    assert left == value[0..|left|];
    PartFree(value, SEPARATOR, 0, |left|);
  }

  lemma ValuesAreClean(fields: seq<Field>, terms: seq<string>)
    requires GoodKeys(fields) && ReadTerms(terms) == Some(ValuesOf(fields))
    requires forall term :: term in terms ==> !Contains(term, SEPARATOR)
    ensures forall i :: 0 <= i < |fields| ==> CleanValue(fields[i].value)
  {
    forall i | 0 <= i < |fields| ensures CleanValue(fields[i].value) {
      ValuesOfAt(fields, i);
      ReadIsClean(terms, fields[i].key);
    }
  }

  /** If what is read are the values of the fields, then nothing of an unquoted last one was trimmed. */
  lemma LastNotTrimmed(fields: seq<Field>, terms: seq<string>, last: Field)
    requires fields != [] && GoodKeys(fields) && ReadTerms(terms) == Some(ValuesOf(fields))
    requires terms != [] && terms[|terms| - 1] == last.Text() && !last.quoted
    requires var f := fields[|fields| - 1]; last == f.(value := TrimRight(f.value, SPACE))
    ensures var value := fields[|fields| - 1].value; value == "" || value[|value| - 1] !in SPACE
  {
    LastRead(terms, last);
    ValuesOfAt(fields, |fields| - 1);
    TrimRightIs(fields[|fields| - 1].value, SPACE);
  }

  lemma LastTermArrives(fields: seq<Field>)
    requires fields != [] && GoodKeys(fields)
    requires var last := fields[|fields| - 1]; !last.quoted && !Contains(last.value, SEPARATOR)
    ensures var terms := Split(Join(Texts(Received(fields)), SEPARATOR), SEPARATOR);
            terms[|terms| - 1] == Received(fields)[|fields| - 1].Text()
  {
    TrimmedFree(fields[|fields| - 1].value);
    LastTerm(Received(fields));
  }

  lemma ReadIsAllClean(fields: seq<Field>, terms: seq<string>)
    requires fields != [] && GoodKeys(fields) && ReadTerms(terms) == Some(ValuesOf(fields))
    requires terms == Split(Join(Texts(Received(fields)), SEPARATOR), SEPARATOR)
    ensures Clean(fields)
  {
    SplitPartsFree(Join(Texts(Received(fields)), SEPARATOR));
    ValuesAreClean(fields, terms);
    if !fields[|fields| - 1].quoted {
      LastTermArrives(fields);
      LastNotTrimmed(fields, terms, Received(fields)[|fields| - 1]);
    }
  }

  lemma BodyRoundTrip(fields: seq<Field>)
    requires fields != [] && GoodKeys(fields)
    ensures ReadBody(Join(Texts(Received(fields)), SEPARATOR)) == Data(ValuesOf(fields)) <==> Clean(fields)
  {
    if Clean(fields) {
      CleanIsRead(fields);
    }
    if ReadBody(Join(Texts(Received(fields)), SEPARATOR)) == Data(ValuesOf(fields)) {
      ReadIsAllClean(fields, Split(Join(Texts(Received(fields)), SEPARATOR), SEPARATOR));
    }
  }

  lemma JoinedRead(fields: seq<Field>)
    requires fields != [] && GoodKeys(fields)
    ensures Read("Digest " + Join(Texts(fields), SEPARATOR)) == ReadBody(Join(Texts(Received(fields)), SEPARATOR))
  {
    JoinLast(fields);
    ReceivedJoin(fields);
    LeadStarts(fields);
    HeaderRead(Lead(fields), LastValue(fields[|fields| - 1]));
  }

  /** The header that is printed from a list of fields is read back as exactly those values, precisely when the values
      are clean. */
  lemma RoundTrip(fields: seq<Field>)
    requires fields != [] && GoodKeys(fields)
    ensures Read("Digest " + Join(Texts(fields), SEPARATOR)) == Data(ValuesOf(fields)) <==> Clean(fields)
  {
    JoinedRead(fields);
    BodyRoundTrip(fields);
  }

  // Signing.

  /** Go's map lookup. */
  function At(data: Values, key: string): string {
    if key in data then data[key] else ""
  }

  /** The request count, printed as eight hexadecimal digits. */
  const NC := "00000001"

  /** The response and the client nonce. The hash is a parameter, and so is the nonce to use when the data has none. */
  function FormResponse(qop: string, data: Values, verb: string, path: string, hash: string -> string,
                        random: string): (string, string)
  {
    var hash1 := hash(At(data, "username") + ":" + At(data, "realm") + ":" + At(data, "password"));
    var hash2 := hash(verb + ":" + path);
    if qop == "" then (hash(hash1 + ":" + At(data, "nonce") + ":" + hash2), "")
    else if qop == "auth" then
      var cnonce := if At(data, "cnonce") == "" then random else At(data, "cnonce");
      (hash(hash1 + ":" + At(data, "nonce") + ":" + NC + ":" + cnonce + ":" + qop + ":" + hash2), cnonce)
    else ("", "")
  }

  /** The keyed digest of section 3.2.1 of RFC 2617. */
  ghost function Keyed(secret: string, text: string, hash: string -> string): string {
    hash(secret + ":" + text)
  }

  lemma JoinTwo(a: string, b: string)
    ensures Join([a, b], ":") == a + ":" + b
  {
    assert [a, b][1..] == [b];
  }

  lemma JoinThree(a: string, b: string, c: string)
    ensures Join([a, b, c], ":") == a + ":" + b + ":" + c
  {
    assert [a, b, c][1..] == [b, c];
    JoinTwo(b, c);
  }

  lemma JoinFive(a: string, b: string, c: string, d: string, e: string)
    ensures Join([a, b, c, d, e], ":") == a + ":" + b + ":" + c + ":" + d + ":" + e
  {
    assert [a, b, c, d, e][1..] == [b, c, d, e] && [b, c, d, e][1..] == [c, d, e];
    JoinThree(c, d, e);
  }

  /** The response is the request digest of section 3.2.2.1 of RFC 2617, in its form with and its form without qop, and
      the client nonce is the one given when there is one. */
  lemma ResponseIsRequestDigest(data: Values, verb: string, path: string, hash: string -> string, random: string)
    ensures var hash1 := hash(Join([At(data, "username"), At(data, "realm"), At(data, "password")], ":"));
            var hash2 := hash(Join([verb, path], ":"));
            var nonce := At(data, "nonce");
            var auth := FormResponse("auth", data, verb, path, hash, random);
            && FormResponse("", data, verb, path, hash, random) == (Keyed(hash1, Join([nonce, hash2], ":"), hash), "")
            && auth.1 == (if At(data, "cnonce") == "" then random else At(data, "cnonce"))
            && auth.0 == Keyed(hash1, Join([nonce, NC, auth.1, "auth", hash2], ":"), hash)
  {
    var user, realm, password := At(data, "username"), At(data, "realm"), At(data, "password");
    JoinThree(user, realm, password);
    JoinTwo(verb, path);
    var hash1 := hash(user + ":" + realm + ":" + password);
    var hash2 := hash(verb + ":" + path);
    var nonce := At(data, "nonce");
    JoinTwo(nonce, hash2);
    Associative(hash1 + ":", nonce + ":", hash2);
    Associative(hash1 + ":", nonce, ":");
    var cnonce := if At(data, "cnonce") == "" then random else At(data, "cnonce");
    JoinFive(nonce, NC, cnonce, "auth", hash2);
    assert hash1 + ":" + nonce + ":" + NC + ":" + cnonce + ":" + "auth" + ":" + hash2 ==
           hash1 + ":" + (nonce + ":" + NC + ":" + cnonce + ":" + "auth" + ":" + hash2);
  }

  function BaseFields(data: Values, path: string, response: string): seq<Field> {
    [Field("username", At(data, "username"), true)] + [Field("realm", At(data, "realm"), true)] +
      [Field("nonce", At(data, "nonce"), true)]
    + [Field("uri", path, true)] + [Field("response", response, true)]
  }

  function OpaqueFields(data: Values, path: string, response: string): seq<Field> {
    BaseFields(data, path, response) + if At(data, "opaque") == "" then []
      else [Field("opaque", At(data, "opaque"), true)]
  }

  /** The fields of a signature, in their order. */
  function FieldsOf(data: Values, path: string, response: string, cnonce: string): seq<Field> {
    var fields := OpaqueFields(data, path, response);
    if At(data, "qop") == "" then fields
    else fields + [Field("qop", At(data, "qop"), false)] + [Field("nc", NC, false)] + [Field("cnonce", cnonce, false)]
  }

  /** Without a response there is no signature. */
  method BuildSignature(data: Values, verb: string, path: string, hash: string -> string, random: string)
      returns (r: Option<string>)
    ensures var answer := FormResponse(At(data, "qop"), data, verb, path, hash, random);
            r == if answer.0 == "" then None else Some(Join(Texts(FieldsOf(data, path, answer.0, answer.1)), SEPARATOR))
    ensures At(data, "qop") !in {"", "auth"} ==> r.None?
  {
    var qop := At(data, "qop");
    if qop != "auth" && qop != "" {
      return None;
    }
    var (response, cnonce) := FormResponse(qop, data, verb, path, hash, random);
    if response == "" {
      return None;
    }
    var auth := [Field("username", At(data, "username"), true).Text()];
    auth := auth + [Field("realm", At(data, "realm"), true).Text()];
    auth := auth + [Field("nonce", At(data, "nonce"), true).Text()];
    auth := auth + [Field("uri", path, true).Text()];
    auth := auth + [Field("response", response, true).Text()];
    assert auth == Texts(BaseFields(data, path, response));
    if At(data, "opaque") != "" {
      auth := auth + [Field("opaque", At(data, "opaque"), true).Text()];
    }
    assert auth == Texts(OpaqueFields(data, path, response));
    if qop != "" {
      auth := auth + [Field("qop", qop, false).Text()];
      auth := auth + [Field("nc", NC, false).Text()];
      auth := auth + [Field("cnonce", cnonce, false).Text()];
    }
    assert auth == Texts(FieldsOf(data, path, response, cnonce));
    return Some(Join(auth, SEPARATOR));
  }

  ghost function SentBase(data: Values, path: string, response: string): Values {
    map["username" := At(data, "username"), "realm" := At(data, "realm"), "nonce" := At(data, "nonce"), "uri" :=
        path, "response" := response]
  }

  ghost function SentOpaque(data: Values, path: string, response: string): Values {
    var sent := SentBase(data, path, response);
    if At(data, "opaque") == "" then sent else sent["opaque" := At(data, "opaque")]
  }

  /** What the server should read, by key. */
  ghost function Sent(data: Values, path: string, response: string, cnonce: string): Values {
    var sent := SentOpaque(data, path, response);
    if At(data, "qop") == "" then sent else sent["qop" := At(data, "qop")]["nc" := NC]["cnonce" := cnonce]
  }

  ghost predicate AllOk(fields: seq<Field>, ok: string -> bool) {
    forall i :: 0 <= i < |fields| ==> ok(fields[i].value)
  }

  /** The values that come from outside are clean. */
  ghost predicate CleanData(data: Values, path: string, response: string, cnonce: string) {
    && CleanValue(At(data, "username")) && CleanValue(At(data, "realm")) && CleanValue(At(data, "nonce"))
    && CleanValue(path) && CleanValue(response) && CleanValue(At(data, "opaque"))
    && (At(data, "qop") != "" ==> CleanValue(cnonce) && (cnonce == "" || cnonce[|cnonce| - 1] !in SPACE))
  }

  lemma HasComma(s: string)
    requires Contains(s, SEPARATOR)
    ensures exists i :: 0 <= i < |s| && s[i] == ','
  {
    FoundAt(s);
  }

  lemma NoComma(s: string)
    requires forall i :: 0 <= i < |s| ==> s[i] != ','
    ensures !Contains(s, SEPARATOR)
  {
    if Contains(s, SEPARATOR) {
      HasComma(s);
    }
  }

  lemma ConstantsClean()
    ensures CleanValue("") && CleanValue("auth") && CleanValue(NC)
  {
    NoComma("");
    NoComma("auth");
    NoComma(NC);
  }

  /** One more field under a new key. */
  lemma AddField(fields: seq<Field>, f: Field)
    requires GoodKeys(fields) && GoodKey(f.key) && f.key !in ValuesOf(fields)
    ensures GoodKeys(fields + [f]) && ValuesOf(fields + [f]) == ValuesOf(fields)[f.key := f.value]
  {
    var more := fields + [f];
    assert more[..|more| - 1] == fields;
    forall i | 0 <= i < |fields| ensures fields[i].key != f.key {
      ValuesOfAt(fields, i);
    }
  }

  lemma AddFirst(f: Field)
    requires GoodKey(f.key)
    ensures GoodKeys([f]) && ValuesOf([f]) == map[f.key := f.value]
  {
    AddField([], f);
    assert [] + [f] == [f];
  }

  lemma AddThree(fields: seq<Field>, a: Field, b: Field, c: Field)
    requires GoodKeys(fields) && GoodKey(a.key) && GoodKey(b.key) && GoodKey(c.key)
    requires a.key !in ValuesOf(fields) && b.key !in ValuesOf(fields) && c.key !in ValuesOf(fields)
    requires a.key != b.key && a.key != c.key && b.key != c.key
    ensures var more := fields + [a] + [b] + [c];
            GoodKeys(more) && ValuesOf(more) == ValuesOf(fields)[a.key := a.value][b.key := b.value][c.key := c.value]
  {
    AddField(fields, a);
    AddField(fields + [a], b);
    AddField(fields + [a] + [b], c);
  }

  lemma KeysGood()
    ensures GoodKey("username") && GoodKey("realm") && GoodKey("nonce") && GoodKey("uri") && GoodKey("response")
    ensures GoodKey("opaque") && GoodKey("qop") && GoodKey("nc") && GoodKey("cnonce")
  {
  }

  lemma KeysDiffer()
    ensures "realm" != "username" && "nonce" != "username" && "uri" != "username" && "response" != "username"
    ensures "realm" != "nonce" && "realm" != "uri" && "nonce" != "uri"
    ensures "response" != "realm" && "response" != "nonce" && "response" != "uri"
    ensures {"opaque", "qop", "nc", "cnonce"} !! {"username", "realm", "nonce", "uri", "response"}
    ensures {"qop", "nc", "cnonce"} !! {"opaque"} && "qop" != "nc" && "nc" != "cnonce" && "qop" != "cnonce"
  {
  }

  lemma BaseFieldsAre(data: Values, path: string, response: string)
    ensures GoodKeys(BaseFields(data, path, response)) &&
            ValuesOf(BaseFields(data, path, response)) == SentBase(data, path, response)
  {
    KeysGood();
    KeysDiffer();
    var first := Field("username", At(data, "username"), true);
    AddFirst(first);
    var realm, nonce, uri := Field("realm", At(data, "realm"), true), Field("nonce", At(data, "nonce"), true),
      Field("uri", path, true);
    AddThree([first], realm, nonce, uri);
    AddField([first] + [realm] + [nonce] + [uri], Field("response", response, true));
  }

  lemma NotYetSent(data: Values, path: string, response: string)
    ensures "opaque" !in SentBase(data, path, response)
    ensures "qop" !in SentOpaque(data, path, response) && "nc" !in SentOpaque(data, path, response) &&
            "cnonce" !in SentOpaque(data, path, response)
  {
    KeysDiffer();
    assert SentBase(data, path, response).Keys == {"username", "realm", "nonce", "uri", "response"};
  }

  lemma OpaqueFieldsAre(data: Values, path: string, response: string)
    ensures GoodKeys(OpaqueFields(data, path, response)) &&
            ValuesOf(OpaqueFields(data, path, response)) == SentOpaque(data, path, response)
  {
    KeysGood();
    NotYetSent(data, path, response);
    BaseFieldsAre(data, path, response);
    var base := BaseFields(data, path, response);
    if At(data, "opaque") != "" {
      AddField(base, Field("opaque", At(data, "opaque"), true));
    } else {
      assert base + [] == base;
    }
  }

  /** The fields of a signature have good keys and hold what is sent. */
  lemma FieldsAre(data: Values, path: string, response: string, cnonce: string)
    ensures GoodKeys(FieldsOf(data, path, response, cnonce)) &&
            ValuesOf(FieldsOf(data, path, response, cnonce)) == Sent(data, path, response, cnonce)
  {
    OpaqueFieldsAre(data, path, response);
    if At(data, "qop") != "" {
      KeysGood();
      KeysDiffer();
      NotYetSent(data, path, response);
      AddThree(OpaqueFields(data, path, response), Field("qop", At(data, "qop"), false), Field("nc", NC, false),
               Field("cnonce", cnonce, false));
    }
  }

  lemma AllOkMore(fields: seq<Field>, f: Field, ok: string -> bool)
    ensures AllOk(fields + [f], ok) <==> AllOk(fields, ok) && ok(f.value)
  {
    var more := fields + [f];
    assert more[|fields|] == f;
    if AllOk(more, ok) {
      forall i | 0 <= i < |fields| ensures ok(fields[i].value) {
        assert more[i] == fields[i];
      }
    }
  }

  lemma AllOkThree(fields: seq<Field>, a: Field, b: Field, c: Field, ok: string -> bool)
    ensures AllOk(fields + [a] + [b] + [c], ok) <==> AllOk(fields, ok) && ok(a.value) && ok(b.value) && ok(c.value)
  {
    AllOkMore(fields, a, ok);
    AllOkMore(fields + [a], b, ok);
    AllOkMore(fields + [a] + [b], c, ok);
  }

  /** The values of a signature's fields. */
  lemma FieldsOk(data: Values, path: string, response: string, cnonce: string, ok: string -> bool)
    ensures AllOk(FieldsOf(data, path, response, cnonce), ok) <==>
            && ok(At(data, "username")) && ok(At(data, "realm")) && ok(At(data, "nonce")) && ok(path) && ok(response)
            && (At(data, "opaque") != "" ==> ok(At(data, "opaque")))
            && (At(data, "qop") != "" ==> ok(At(data, "qop")) && ok(NC) && ok(cnonce))
  {
    var first := Field("username", At(data, "username"), true);
    var realm, nonce, uri := Field("realm", At(data, "realm"), true), Field("nonce", At(data, "nonce"), true),
      Field("uri", path, true);
    AllOkMore([], first, ok);
    assert [] + [first] == [first];
    AllOkThree([first], realm, nonce, uri, ok);
    AllOkMore([first] + [realm] + [nonce] + [uri], Field("response", response, true), ok);
    var base, fields := BaseFields(data, path, response), OpaqueFields(data, path, response);
    AllOkMore(base, Field("opaque", At(data, "opaque"), true), ok);
    assert fields == if At(data, "opaque") == "" then base else base + [Field("opaque", At(data, "opaque"), true)];
    AllOkThree(fields, Field("qop", At(data, "qop"), false), Field("nc", NC, false), Field("cnonce", cnonce, false),
               ok);
  }

  lemma LastField(data: Values, path: string, response: string, cnonce: string)
    ensures var fields := FieldsOf(data, path, response, cnonce);
            fields != [] && if At(data, "qop") == "" then fields[|fields| - 1].quoted
              else fields[|fields| - 1] == Field("cnonce", cnonce, false)
  {
  }

  ghost predicate LastOk(fields: seq<Field>)
    requires fields != []
  {
    var last := fields[|fields| - 1];
    last.quoted || last.value == "" || last.value[|last.value| - 1] !in SPACE
  }

  lemma CleanParts(fields: seq<Field>)
    requires fields != []
    ensures Clean(fields) <==> AllOk(fields, CleanValue) && LastOk(fields)
  {
    assert AllOk(fields, CleanValue) <==> forall i :: 0 <= i < |fields| ==> CleanValue(fields[i].value);
  }

  /** The fields of a signature are clean exactly when the values that come from outside are. */
  lemma FieldsClean(data: Values, path: string, response: string, cnonce: string)
    requires At(data, "qop") in {"", "auth"}
    ensures FieldsOf(data, path, response, cnonce) != []
    ensures Clean(FieldsOf(data, path, response, cnonce)) <==> CleanData(data, path, response, cnonce)
  {
    FieldsOk(data, path, response, cnonce, CleanValue);
    LastField(data, path, response, cnonce);
    ConstantsClean();
    CleanParts(FieldsOf(data, path, response, cnonce));
  }

  /** A signature is read back as the values that were sent, precisely when those that come from outside are clean. */
  lemma SignatureRoundTrip(data: Values, path: string, response: string, cnonce: string)
    requires At(data, "qop") in {"", "auth"}
    ensures Read("Digest " + Join(Texts(FieldsOf(data, path, response, cnonce)), SEPARATOR)) ==
            Data(Sent(data, path, response, cnonce))
            <==> CleanData(data, path, response, cnonce)
  {
    FieldsAre(data, path, response, cnonce);
    FieldsClean(data, path, response, cnonce);
    RoundTrip(FieldsOf(data, path, response, cnonce));
  }
}

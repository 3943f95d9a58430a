/**
 How the consumer's Influx writer prints a point: the escaping of tags by four
 chained replacements, and the line built from measurement, tags, fields and
 timestamp. A reader written independently of the printer recovers the parts.
 */
module LineProtocol {
  import opened Common

  type Pair = (string, string)

  // ------------------------------------------------------------- printing

  /** Python's str.replace with a pattern of one character. */
  function Replace(s: string, c: char, with: string): string {
    if s == [] then [] else (if s[0] == c then with else [s[0]]) + Replace(s[1..], c, with)
  }

  function EscapeTag(v: string): string {
    Replace(Replace(Replace(Replace(v, '\\', "\\\\"), ',', "\\,"), '=', "\\="), ' ', "\\ ")
  }

  function EscapeFieldKey(k: string): string {
    Replace(Replace(Replace(Replace(k, '.', "_"), ',', "\\,"), '=', "\\="), ' ', "\\ ")
  }

  function TagText(tag: Pair): string {
    "," + EscapeTag(tag.0) + "=" + EscapeTag(tag.1)
  }

  function TagSection(tags: seq<Pair>): string {
    if tags == [] then "" else TagText(tags[0]) + TagSection(tags[1..])
  }

  function FieldText(field: Pair): string {
    EscapeFieldKey(field.0) + "=" + field.1
  }

  function Join(texts: seq<string>): string {
    if texts == [] then "" else if |texts| == 1 then texts[0] else texts[0] + "," + Join(texts[1..])
  }

  function FieldSection(fields: seq<Pair>): string {
    Join(seq(|fields|, i requires 0 <= i < |fields| => FieldText(fields[i])))
  }

  /** What follows the tags: fields and timestamp. */
  function Rest(fields: seq<Pair>, stamp: string): string {
    " " + FieldSection(fields) + " " + stamp
  }

  /** The entries of a dictionary that have a usable value, in order. */
  function Present(entries: seq<(string, Option<string>)>): seq<Pair> {
    if entries == [] then []
    else (if entries[0].1.Some? then [(entries[0].0, entries[0].1.value)] else []) + Present(entries[1..])
  }

  // --------------------------------------- escaping in one pass, and reading

  predicate Special(c: char) {
    c == '\\' || c == ',' || c == '=' || c == ' '
  }

  function OnePass(v: string): string {
    if v == [] then [] else (if Special(v[0]) then ['\\', v[0]] else [v[0]]) + OnePass(v[1..])
  }

  predicate Delimiter(c: char) {
    c == ',' || c == '=' || c == ' '
  }

  /** The text up to the first unescaped delimiter, with escapes undone, and what follows. */
  function ReadToken(s: string): (r: (string, string))
    ensures |r.1| <= |s|
  {
    if s == [] || Delimiter(s[0]) then ([], s)
    else if s[0] == '\\' && |s| > 1 then
      var (token, rest) := ReadToken(s[2..]);
      ([s[1]] + token, rest)
    else
      var (token, rest) := ReadToken(s[1..]);
      ([s[0]] + token, rest)
  }

  /** Reads ,key=value as often as it comes. */
  function ReadTags(s: string): (seq<Pair>, string)
    decreases |s|
  {
    if s == [] || s[0] != ',' then ([], s)
    else
      var (key, s1) := ReadToken(s[1..]);
      if s1 == [] || s1[0] != '=' then ([], s)
      else
        var (value, s2) := ReadToken(s1[1..]);
        var (tags, rest) := ReadTags(s2);
        ([(key, value)] + tags, rest)
  }

  /**
   The name up to the first unescaped comma or space, and what follows. A backslash
   stands for the character after it, whatever that is, as in tags.
   */
  function ReadMeasurement(s: string): (r: (string, string))
    ensures |r.0| + |r.1| <= |s|
  {
    if s == [] || s[0] == ',' || s[0] == ' ' then ([], s)
    else if s[0] == '\\' && |s| > 1 then
      var (name, rest) := ReadMeasurement(s[2..]);
      ([s[1]] + name, rest)
    else
      var (name, rest) := ReadMeasurement(s[1..]);
      ([s[0]] + name, rest)
  }

  /** Reads key=value,key=value and so on. */
  function ReadFields(s: string): (seq<Pair>, string)
    decreases |s|
  {
    var (key, s1) := ReadToken(s);
    if s1 == [] || s1[0] != '=' then ([], s)
    else
      var (value, s2) := ReadToken(s1[1..]);
      if s2 == [] || s2[0] != ',' then ([(key, value)], s2)
      else
        var (fields, rest) := ReadFields(s2[1..]);
        ([(key, value)] + fields, rest)
  }

  datatype Point = Point(name: string, tags: seq<Pair>, fields: seq<Pair>, stamp: string)

  /** Reads a whole line: name and tags, a space, fields, a space, timestamp. */
  function ReadPoint(s: string): Option<Point> {
    var (name, s1) := ReadMeasurement(s);
    var (tags, s2) := ReadTags(s1);
    if s2 == [] || s2[0] != ' ' then None
    else
      var (fields, s3) := ReadFields(s2[1..]);
      if s3 == [] || s3[0] != ' ' then None else Some(Point(name, tags, fields, s3[1..]))
  }

  // ------------------------------------------------------------ the escape

  lemma Associate(a: string, b: string, c: string)
    ensures a + (b + c) == a + b + c
  {
  }

  lemma {:induction false} ReplaceConcat(a: string, b: string, c: char, r: string)
    ensures Replace(a + b, c, r) == Replace(a, c, r) + Replace(b, c, r)
  {
    if a == [] {
      assert a + b == b;
    } else {
      var ab, first := a + b, if a[0] == c then r else [a[0]];
      ReplaceConcat(a[1..], b, c, r);
      assert ab[0] == a[0] && ab[1..] == a[1..] + b;
      Associate(first, Replace(a[1..], c, r), Replace(b, c, r));
    }
  }

  lemma EscapeConcat(a: string, b: string)
    ensures EscapeTag(a + b) == EscapeTag(a) + EscapeTag(b)
  {
    var a1, b1 := Replace(a, '\\', "\\\\"), Replace(b, '\\', "\\\\");
    var a2, b2 := Replace(a1, ',', "\\,"), Replace(b1, ',', "\\,");
    var a3, b3 := Replace(a2, '=', "\\="), Replace(b2, '=', "\\=");
    ReplaceConcat(a, b, '\\', "\\\\");
    ReplaceConcat(a1, b1, ',', "\\,");
    ReplaceConcat(a2, b2, '=', "\\=");
    ReplaceConcat(a3, b3, ' ', "\\ ");
  }

  lemma ReplaceOne(x: char, c: char, r: string)
    ensures Replace([x], c, r) == if x == c then r else [x]
  {
    assert Replace([x][1..], c, r) == [];
  }

  lemma ReplaceTwo(x: char, y: char, c: char, r: string)
    requires x != c && y != c
    ensures Replace([x, y], c, r) == [x, y]
  {
    assert [x, y][1..] == [y];
    ReplaceOne(y, c, r);
  }

  /** Later replacements leave the backslashes of earlier ones alone. */
  lemma EscapeChar(x: char)
    ensures EscapeTag([x]) == if Special(x) then ['\\', x] else [x]
  {
    var v1 := Replace([x], '\\', "\\\\");
    var v2 := Replace(v1, ',', "\\,");
    var v3 := Replace(v2, '=', "\\=");
    ReplaceOne(x, '\\', "\\\\");
    if x == '\\' {
      ReplaceTwo('\\', '\\', ',', "\\,");
      ReplaceTwo('\\', '\\', '=', "\\=");
      ReplaceTwo('\\', '\\', ' ', "\\ ");
    } else {
      ReplaceOne(x, ',', "\\,");
      if x == ',' {
        ReplaceTwo('\\', ',', '=', "\\=");
        ReplaceTwo('\\', ',', ' ', "\\ ");
      } else {
        ReplaceOne(x, '=', "\\=");
        if x == '=' { ReplaceTwo('\\', '=', ' ', "\\ "); } else { ReplaceOne(x, ' ', "\\ "); }
      }
    }
  }

  /** The four chained replacements are one pass that escapes each special character once. */
  lemma {:induction false} EscapeIsOnePass(v: string)
    ensures EscapeTag(v) == OnePass(v)
  {
    if v != [] {
      assert v == [v[0]] + v[1..];
      EscapeConcat([v[0]], v[1..]);
      EscapeChar(v[0]);
      EscapeIsOnePass(v[1..]);
    }
  }

  // -------------------------------------------------------------- reading back

  /** What may follow a token. */
  predicate Ends(rest: string) {
    rest == [] || Delimiter(rest[0])
  }

  lemma {:induction false} ReadOnePass(v: string, rest: string)
    requires Ends(rest)
    ensures ReadToken(OnePass(v) + rest) == (v, rest)
  {
    var s := OnePass(v) + rest;
    if v == [] {
      assert s == rest;
    } else {
      ReadOnePass(v[1..], rest);
      assert v == [v[0]] + v[1..];
      if Special(v[0]) {
        assert s[0] == '\\' && s[1] == v[0] && s[2..] == OnePass(v[1..]) + rest;
      } else {
        assert s[0] == v[0] && s[1..] == OnePass(v[1..]) + rest;
      }
    }
  }

  /** Reading inverts the escape, whatever delimiter follows. */
  lemma ReadEscaped(v: string, rest: string)
    requires Ends(rest)
    ensures ReadToken(EscapeTag(v) + rest) == (v, rest)
  {
    EscapeIsOnePass(v);
    ReadOnePass(v, rest);
  }

  lemma EscapeInjective(v: string, w: string)
    requires EscapeTag(v) == EscapeTag(w)
    ensures v == w
  {
    ReadEscaped(v, "");
    ReadEscaped(w, "");
  }

  lemma TagSectionEnds(tags: seq<Pair>, rest: string)
    requires Ends(rest)
    ensures Ends(TagSection(tags) + rest)
  {
    if tags == [] {
      assert TagSection(tags) + rest == rest;
    } else {
      assert (TagSection(tags) + rest)[0] == ',';
    }
  }

  lemma CutTag(k: string, v: string, more: string)
    ensures var s := "," + k + "=" + v + more; s[0] == ',' && s[1..] == k + ("=" + (v + more))
    ensures ("=" + (v + more))[1..] == v + more
  {
  }

  /** One printed tag reads back, and what follows is left. */
  lemma ReadOneTag(tag: Pair, more: string, afterKey: string)
    requires Ends(more) && afterKey == "=" + (EscapeTag(tag.1) + more)
    ensures var s := TagText(tag) + more; s[0] == ',' && ReadToken(s[1..]) == (tag.0, afterKey)
    ensures ReadToken(afterKey[1..]) == (tag.1, more)
  {
    var s := TagText(tag) + more;
    ReadEscaped(tag.0, afterKey);
    ReadEscaped(tag.1, more);
    CutTag(EscapeTag(tag.0), EscapeTag(tag.1), more);
  }

  /** Every list of tags is recovered from its section, when no further tag follows. */
  lemma {:induction false} ReadPrintedTags(tags: seq<Pair>, rest: string)
    requires rest == [] || rest[0] == ' '
    ensures ReadTags(TagSection(tags) + rest) == (tags, rest)
  {
    if tags == [] {
      assert TagSection(tags) + rest == rest;
    } else {
      var more := TagSection(tags[1..]) + rest;
      TagSectionEnds(tags[1..], rest);
      ReadPrintedTags(tags[1..], rest);
      ReadMoreTags(tags, more, rest, "=" + (EscapeTag(tags[0].1) + more));
      assert TagSection(tags) + rest == TagText(tags[0]) + more;
    }
  }

  lemma ReadMoreTags(tags: seq<Pair>, more: string, rest: string, afterKey: string)
    requires tags != [] && Ends(more) && ReadTags(more) == (tags[1..], rest)
    requires afterKey == "=" + (EscapeTag(tags[0].1) + more)
    ensures ReadTags(TagText(tags[0]) + more) == (tags, rest)
  {
    ReadOneTag(tags[0], more, afterKey);
    assert tags == [(tags[0].0, tags[0].1)] + tags[1..];
    assert TagText(tags[0]) + more != [];
  }

  /** Two different lists of tags never print alike. */
  lemma TagSectionInjective(tags: seq<Pair>, tags': seq<Pair>)
    ensures TagSection(tags) == TagSection(tags') <==> tags == tags'
  {
    ReadPrintedTags(tags, "");
    ReadPrintedTags(tags', "");
    assert TagSection(tags) + "" == TagSection(tags) && TagSection(tags') + "" == TagSection(tags');
  }

  predicate PlainName(measurement: string) {
    ',' !in measurement && ' ' !in measurement && '\\' !in measurement
  }

  /** An unescaped measurement reads back exactly when it is plain. */
  lemma {:induction false} ReadPlainName(m: string, rest: string)
    requires rest != [] && (rest[0] == ',' || rest[0] == ' ')
    ensures ReadMeasurement(m + rest) == (m, rest) <==> PlainName(m)
  {
    var s := m + rest;
    if m == [] {
      assert s == rest;
    } else if m[0] == ',' || m[0] == ' ' {
      assert s[0] == m[0] && m[0] in m;
    } else if m[0] == '\\' {
      assert s[0] == m[0] && m[0] in m;
    } else {
      ReadPlainName(m[1..], rest);
      assert s[0] == m[0] && s[1..] == m[1..] + rest && m == [m[0]] + m[1..];
      assert PlainName(m) <==> PlainName(m[1..]);
    }
  }

  /** A whole printed line gives back measurement, tags and the rest. */
  lemma ReadLine(m: string, tags: seq<Pair>, rest: string)
    requires PlainName(m) && rest != [] && rest[0] == ' '
    ensures ReadMeasurement(m + TagSection(tags) + rest) == (m, TagSection(tags) + rest)
    ensures ReadTags(TagSection(tags) + rest) == (tags, rest)
  {
    var after := TagSection(tags) + rest;
    ReadPrintedTags(tags, rest);
    assert after[0] == ',' || after[0] == ' ' by {
      if tags == [] { assert after == rest; } else { assert after[0] == TagText(tags[0])[0]; }
    }
    Associate(m, TagSection(tags), rest);
    ReadPlainName(m, after);
  }

  /** Lines of plain measurements are equal only when everything in them is. */
  lemma LinesUnambiguous(m: string, tags: seq<Pair>, rest: string, m': string, tags': seq<Pair>, rest': string)
    requires PlainName(m) && PlainName(m') && rest != [] && rest[0] == ' ' && rest' != [] && rest'[0] == ' '
    requires m + TagSection(tags) + rest == m' + TagSection(tags') + rest'
    ensures m == m' && tags == tags' && rest == rest'
  {
    ReadLine(m, tags, rest);
    ReadLine(m', tags', rest');
  }

  /** The measurement itself is not escaped, so one with a comma can pass for a tag. */
  lemma CommaInMeasurement()
    ensures "kpm,ue=1" + TagSection([]) == "kpm" + TagSection([("ue", "1")])
  {
    EscapeIsOnePass("ue");
    EscapeIsOnePass("1");
    assert OnePass("ue") == "ue" by { assert "ue"[1..] == "e" && "e"[1..] == ""; }
    assert OnePass("1") == "1" by { assert "1"[1..] == ""; }
    assert TagSection([("ue", "1")]) == TagText(("ue", "1")) + TagSection([]);
  }

  // ---------------------------------------------------------------- the fields

  /** A field key as it is meant to arrive: dots become underscores. */
  function Underscored(k: string): (r: string)
    ensures |r| == |k| && forall i :: 0 <= i < |k| ==> r[i] == if k[i] == '.' then '_' else k[i]
  {
    seq(|k|, i requires 0 <= i < |k| => if k[i] == '.' then '_' else k[i])
  }

  /** Escapes delimiters, but not the backslash. */
  function DelimiterPass(v: string): string {
    if v == [] then [] else (if Delimiter(v[0]) then ['\\', v[0]] else [v[0]]) + DelimiterPass(v[1..])
  }

  lemma EscapeKeyConcat(a: string, b: string)
    ensures EscapeFieldKey(a + b) == EscapeFieldKey(a) + EscapeFieldKey(b)
  {
    var a1, b1 := Replace(a, '.', "_"), Replace(b, '.', "_");
    var a2, b2 := Replace(a1, ',', "\\,"), Replace(b1, ',', "\\,");
    var a3, b3 := Replace(a2, '=', "\\="), Replace(b2, '=', "\\=");
    ReplaceConcat(a, b, '.', "_");
    ReplaceConcat(a1, b1, ',', "\\,");
    ReplaceConcat(a2, b2, '=', "\\=");
    ReplaceConcat(a3, b3, ' ', "\\ ");
  }

  lemma EscapeKeyChar(x: char)
    ensures var y := if x == '.' then '_' else x;
      EscapeFieldKey([x]) == if Delimiter(y) then ['\\', y] else [y]
  {
    var y := if x == '.' then '_' else x;
    ReplaceOne(x, '.', "_");
    assert Replace([x], '.', "_") == [y];
    ReplaceOne(y, ',', "\\,");
    if y == ',' {
      ReplaceTwo('\\', ',', '=', "\\=");
      ReplaceTwo('\\', ',', ' ', "\\ ");
    } else {
      ReplaceOne(y, '=', "\\=");
      if y == '=' { ReplaceTwo('\\', '=', ' ', "\\ "); } else { ReplaceOne(y, ' ', "\\ "); }
    }
  }

  /** The chained replacements of a field key are one pass over the key with dots as underscores. */
  lemma {:induction false} EscapeKeyIsOnePass(k: string)
    ensures EscapeFieldKey(k) == DelimiterPass(Underscored(k))
  {
    if k == [] {
      assert Underscored(k) == [];
    } else {
      assert k == [k[0]] + k[1..];
      EscapeKeyConcat([k[0]], k[1..]);
      EscapeKeyChar(k[0]);
      EscapeKeyIsOnePass(k[1..]);
      assert Underscored(k)[1..] == Underscored(k[1..]);
    }
  }

  /** Without backslashes both escapes agree. */
  lemma {:induction false} PassesAgree(v: string)
    requires '\\' !in v
    ensures DelimiterPass(v) == OnePass(v)
  {
    if v != [] {
      assert v[0] in v && forall c :: c in v[1..] ==> c in v;
      PassesAgree(v[1..]);
    }
  }

  function Backslashes(n: nat): string {
    seq(n, _ => '\\')
  }

  /** Escape and reader on a text that starts with a backslash. */
  lemma LoneBackslash(w: string, rest: string, n: nat)
    requires w != [] && w[0] == '\\' && (|w| > 1 ==> w[1] != '\\') && rest != [] && Delimiter(rest[0])
    ensures ReadToken(DelimiterPass(w) + rest).0 != Backslashes(n) + w
  {
    var s, target := DelimiterPass(w) + rest, Backslashes(n) + w;
    assert target[0] == '\\' && |target| >= |w|;
    if |w| == 1 {
      assert DelimiterPass(w[1..]) == [] && s[0] == '\\' && s[1] == rest[0];
    } else if Delimiter(w[1]) {
      var t := s[2..];
      assert DelimiterPass(w[1..]) == ['\\', w[1]] + DelimiterPass(w[1..][1..]);
      assert s[0] == '\\' && s[1] == '\\' && t[0] == w[1];
      assert ReadToken(t).0 == [];
    } else {
      assert DelimiterPass(w[1..]) == [w[1]] + DelimiterPass(w[1..][1..]);
      assert s[0] == '\\' && s[1] == w[1];
    }
  }

  /** What is read is never the text behind n backslashes, unless there is no backslash at all. */
  lemma {:induction false} BackslashLost(w: string, rest: string, n: nat)
    requires rest != [] && Delimiter(rest[0]) && (n > 0 || '\\' in w)
    ensures ReadToken(DelimiterPass(w) + rest).0 != Backslashes(n) + w
    decreases |w|
  {
    var s, target := DelimiterPass(w) + rest, Backslashes(n) + w;
    if w == [] {
      assert s == rest && |target| > 0;
    } else if w[0] == '\\' && |w| > 1 && w[1] == '\\' {
      BackslashLost(w[2..], rest, n + 1);
      assert DelimiterPass(w[1..]) == ['\\'] + DelimiterPass(w[2..]) by { assert w[1..][1..] == w[2..]; }
      assert s[0] == '\\' && s[1] == '\\' && s[2..] == DelimiterPass(w[2..]) + rest;
      assert target[1..] == Backslashes(n + 1) + w[2..];
    } else if w[0] == '\\' {
      LoneBackslash(w, rest, n);
    } else {
      assert ReadToken(s).0[0] == w[0];
      if n > 0 {
        assert target[0] == '\\';
      } else {
        assert w == [w[0]] + w[1..];
        BackslashLost(w[1..], rest, 0);
        assert target == w && target[1..] == Backslashes(0) + w[1..];
        PlainHead(w, rest);
      }
    }
  }

  lemma PlainHead(w: string, rest: string)
    requires w != [] && w[0] != '\\'
    ensures ReadToken(DelimiterPass(w) + rest).0 == [w[0]] + ReadToken(DelimiterPass(w[1..]) + rest).0
  {
    var tail := DelimiterPass(w[1..]);
    if Delimiter(w[0]) {
      Associate(['\\', w[0]], tail, rest);
      EscapedHead(w[0], tail + rest);
    } else {
      Associate([w[0]], tail, rest);
      OrdinaryHead(w[0], tail + rest);
    }
  }

  lemma EscapedHead(c: char, more: string)
    ensures ReadToken(['\\', c] + more).0 == [c] + ReadToken(more).0
  {
    assert (['\\', c] + more)[2..] == more;
  }

  lemma OrdinaryHead(c: char, more: string)
    requires !Special(c)
    ensures ReadToken([c] + more).0 == [c] + ReadToken(more).0
  {
    assert ([c] + more)[1..] == more;
  }

  /**
   A printed field key reads back, with dots as underscores, exactly when it has no
   backslash: the printer escapes the delimiters but not the escape character.
   */
  lemma ReadFieldKey(k: string, rest: string)
    requires rest != [] && Delimiter(rest[0])
    ensures ReadToken(EscapeFieldKey(k) + rest).0 == Underscored(k) <==> '\\' !in k
    ensures '\\' !in k ==> ReadToken(EscapeFieldKey(k) + rest) == (Underscored(k), rest)
  {
    var w := Underscored(k);
    EscapeKeyIsOnePass(k);
    assert '\\' in k <==> '\\' in w by {
      if i :| 0 <= i < |k| && k[i] == '\\' { assert w[i] == '\\'; }
      if i :| 0 <= i < |w| && w[i] == '\\' { assert k[i] == '\\'; }
    }
    if '\\' in w {
      BackslashLost(w, rest, 0);
      assert Backslashes(0) + w == w;
    } else {
      PassesAgree(w);
      ReadOnePass(w, rest);
    }
  }

  /** The text of a number: nothing in it needs an escape. */
  predicate Clean(v: string) {
    forall i :: 0 <= i < |v| ==> !Special(v[i])
  }

  lemma {:induction false} ReadClean(v: string, rest: string)
    requires Clean(v) && Ends(rest)
    ensures ReadToken(v + rest) == (v, rest)
  {
    CleanPass(v);
    ReadOnePass(v, rest);
  }

  lemma {:induction false} CleanPass(v: string)
    requires Clean(v)
    ensures OnePass(v) == v
  {
    if v != [] { CleanPass(v[1..]); }
  }

  predicate CleanValues(fields: seq<Pair>) {
    forall i :: 0 <= i < |fields| ==> Clean(fields[i].1)
  }

  predicate PlainKeys(fields: seq<Pair>) {
    forall i :: 0 <= i < |fields| ==> '\\' !in fields[i].0
  }

  /** The fields as a reader should find them. */
  function Recovered(fields: seq<Pair>): (r: seq<Pair>)
    ensures |r| == |fields| && forall i :: 0 <= i < |r| ==> r[i] == (Underscored(fields[i].0), fields[i].1)
  {
    seq(|fields|, i requires 0 <= i < |fields| => (Underscored(fields[i].0), fields[i].1))
  }

  /** What is printed behind the first field. */
  function Behind(fields: seq<Pair>, rest: string): string
    requires fields != []
  {
    if |fields| == 1 then rest else "," + (FieldSection(fields[1..]) + rest)
  }

  lemma FirstField(fields: seq<Pair>)
    requires fields != []
    ensures FieldSection(fields) ==
      if |fields| == 1 then FieldText(fields[0]) else FieldText(fields[0]) + "," + FieldSection(fields[1..])
  {
    var texts := seq(|fields|, i requires 0 <= i < |fields| => FieldText(fields[i]));
    var tail := fields[1..];
    assert texts[1..] == seq(|tail|, i requires 0 <= i < |tail| => FieldText(tail[i]));
  }

  lemma Regroup(k: string, v: string, rest: string)
    ensures k + "=" + v + rest == k + ("=" + (v + rest))
  {
  }

  lemma CutField(fields: seq<Pair>, rest: string)
    requires fields != []
    ensures FieldSection(fields) + rest == EscapeFieldKey(fields[0].0) + ("=" + (fields[0].1 + Behind(fields, rest)))
  {
    FirstField(fields);
    var text := FieldText(fields[0]);
    if |fields| > 1 {
      var section := FieldSection(fields[1..]);
      Associate(text + ",", section, rest);
      Associate(text, ",", section + rest);
    }
    Regroup(EscapeFieldKey(fields[0].0), fields[0].1, Behind(fields, rest));
  }

  /** The first field of a printed section, read back. */
  lemma ReadFirstField(fields: seq<Pair>, rest: string, more: string)
    requires fields != [] && CleanValues(fields) && Ends(rest) && rest != [] && more == Behind(fields, rest)
    ensures '\\' in fields[0].0 ==> ReadToken(FieldSection(fields) + rest).0 != Underscored(fields[0].0)
    ensures '\\' !in fields[0].0 ==>
      && ReadToken(FieldSection(fields) + rest) == (Underscored(fields[0].0), "=" + (fields[0].1 + more))
      && ReadToken(("=" + (fields[0].1 + more))[1..]) == (fields[0].1, more)
  {
    CutField(fields, rest);
    ReadFieldKey(fields[0].0, "=" + (fields[0].1 + more));
    assert ("=" + (fields[0].1 + more))[1..] == fields[0].1 + more;
    ReadClean(fields[0].1, more);
  }

  /**
   Every list of fields is recovered from its section, in order, with dots in keys as
   underscores, exactly when no key has a backslash.
   */
  lemma {:induction false} ReadPrintedFields(fields: seq<Pair>, rest: string)
    requires fields != [] && CleanValues(fields) && rest != [] && rest[0] == ' '
    ensures ReadFields(FieldSection(fields) + rest).0 == Recovered(fields) <==> PlainKeys(fields)
    ensures PlainKeys(fields) ==> ReadFields(FieldSection(fields) + rest) == (Recovered(fields), rest)
    decreases |fields|
  {
    var more := Behind(fields, rest);
    ReadFirstField(fields, rest, more);
    if '\\' in fields[0].0 {
      FirstKeyLost(fields, FieldSection(fields) + rest);
    } else if |fields| == 1 {
      LastField(fields, FieldSection(fields) + rest, more);
    } else {
      assert more[1..] == FieldSection(fields[1..]) + rest;
      assert CleanValues(fields[1..]);
      ReadPrintedFields(fields[1..], rest);
      ReadMoreFields(fields, FieldSection(fields) + rest, more);
      KeysSplit(fields);
      RecoveredSplit(fields, ReadFields(more[1..]).0);
    }
  }

  lemma FirstKeyLost(fields: seq<Pair>, s: string)
    requires fields != [] && '\\' in fields[0].0 && ReadToken(s).0 != Underscored(fields[0].0)
    ensures ReadFields(s).0 != Recovered(fields) && !PlainKeys(fields)
  {
    if ReadFields(s).0 != [] { assert ReadFields(s).0[0].0 == ReadToken(s).0; }
    assert Recovered(fields)[0].0 == Underscored(fields[0].0);
  }

  lemma LastField(fields: seq<Pair>, s: string, rest: string)
    requires |fields| == 1 && rest != [] && rest[0] == ' ' && '\\' !in fields[0].0
    requires ReadToken(s) == (Underscored(fields[0].0), "=" + (fields[0].1 + rest))
    requires ReadToken(("=" + (fields[0].1 + rest))[1..]) == (fields[0].1, rest)
    ensures ReadFields(s) == (Recovered(fields), rest) && PlainKeys(fields)
  {
    assert Recovered(fields) == [(Underscored(fields[0].0), fields[0].1)];
  }

  lemma RecoveredSplit(fields: seq<Pair>, read: seq<Pair>)
    requires fields != []
    ensures [(Underscored(fields[0].0), fields[0].1)] + read == Recovered(fields) <==> read == Recovered(fields[1..])
  {
    var first := [(Underscored(fields[0].0), fields[0].1)];
    assert Recovered(fields) == first + Recovered(fields[1..]);
    assert (first + read)[1..] == read && (first + Recovered(fields[1..]))[1..] == Recovered(fields[1..]);
  }

  lemma ReadMoreFields(fields: seq<Pair>, s: string, more: string)
    requires fields != [] && more != [] && more[0] == ','
    requires ReadToken(s) == (Underscored(fields[0].0), "=" + (fields[0].1 + more))
    requires ReadToken(("=" + (fields[0].1 + more))[1..]) == (fields[0].1, more)
    ensures ReadFields(s).0 == [(Underscored(fields[0].0), fields[0].1)] + ReadFields(more[1..]).0
    ensures ReadFields(s).1 == ReadFields(more[1..]).1
  {
  }

  lemma KeysSplit(fields: seq<Pair>)
    requires fields != []
    ensures PlainKeys(fields) <==> '\\' !in fields[0].0 && PlainKeys(fields[1..])
  {
    var tail := fields[1..];
    assert forall i :: 1 <= i < |fields| ==> fields[i] == tail[i - 1];
  }

  /**
   A printed point reads back whole: name, tags and fields in order, and the
   timestamp, exactly when no field key has a backslash.
   */
  lemma ReadPrintedPoint(m: string, tags: seq<Pair>, fields: seq<Pair>, stamp: string)
    requires PlainName(m) && fields != [] && CleanValues(fields)
    ensures var line := m + TagSection(tags) + Rest(fields, stamp);
      ReadPoint(line) == Some(Point(m, tags, Recovered(fields), stamp)) <==> PlainKeys(fields)
  {
    var rest, after := Rest(fields, stamp), " " + stamp;
    assert rest == " " + (FieldSection(fields) + after);
    assert rest[1..] == FieldSection(fields) + after && after[1..] == stamp;
    ReadLine(m, tags, rest);
    ReadPrintedFields(fields, after);
  }

  /** An input on which the field keys go wrong. */
  lemma BackslashInFieldKey()
    ensures ReadToken(EscapeFieldKey("a\\b") + "=1").0 != "a\\b"
  {
    ReadFieldKey("a\\b", "=1");
    assert "a\\b"[1] == '\\' && Underscored("a\\b") == "a\\b";
  }

  // ---------------------------------------------------------------- writing

  lemma {:induction false} PresentAppend(a: seq<(string, Option<string>)>, e: (string, Option<string>))
    ensures Present(a + [e]) == Present(a) + (if e.1.Some? then [(e.0, e.1.value)] else [])
  {
    if a == [] {
      assert a + [e] == [e] && Present([e][1..]) == [];
    } else {
      var b := a + [e];
      PresentAppend(a[1..], e);
      assert b[0] == a[0] && b[1..] == a[1..] + [e];
      var first := if a[0].1.Some? then [(a[0].0, a[0].1.value)] else [];
      var last := if e.1.Some? then [(e.0, e.1.value)] else [];
      assert Present(b) == first + (Present(a[1..]) + last);
    }
  }

  lemma {:induction false} TagSectionAppend(a: seq<Pair>, tag: Pair)
    ensures TagSection(a + [tag]) == TagSection(a) + TagText(tag)
  {
    if a == [] {
      assert a + [tag] == [tag] && TagSection([tag][1..]) == "";
    } else {
      TagSectionAppend(a[1..], tag);
      assert (a + [tag])[0] == a[0] && (a + [tag])[1..] == a[1..] + [tag];
      Associate(TagText(a[0]), TagSection(a[1..]), TagText(tag));
    }
  }

  /**
   `write`, up to the request: a tag is None when its value is, a field when its
   value is not a number (otherwise it comes with the number's text). There is
   no line exactly when writing is off or no field is numeric.
   */
  method BuildLine(enabled: bool, measurement: string, fields: seq<(string, Option<string>)>,
                   tags: seq<(string, Option<string>)>, stamp: string) returns (line: Option<string>)
    ensures line.None? <==> !enabled || Present(fields) == []
    ensures line.Some? ==> line.value == measurement + TagSection(Present(tags)) + Rest(Present(fields), stamp)
    ensures line.Some? && PlainName(measurement) ==>
      var (name, rest) := ReadMeasurement(line.value);
      name == measurement && ReadTags(rest).0 == Present(tags)
    ensures line.Some? && PlainName(measurement) && CleanValues(Present(fields)) ==>
      (ReadPoint(line.value) == Some(Point(measurement, Present(tags), Recovered(Present(fields)), stamp))
       <==> PlainKeys(Present(fields)))
  {
    if !enabled {
      return None;
    }
    var numeric: seq<Pair> := [];
    for i := 0 to |fields|
      invariant numeric == Present(fields[..i])
    {
      PresentAppend(fields[..i], fields[i]);
      assert fields[..i+1] == fields[..i] + [fields[i]];
      if fields[i].1.Some? {
        numeric := numeric + [(fields[i].0, fields[i].1.value)];
      }
    }
    assert fields[..|fields|] == fields;
    if numeric == [] {
      return None;
    }
    var text := measurement;
    for i := 0 to |tags|
      invariant text == measurement + TagSection(Present(tags[..i]))
    {
      PresentAppend(tags[..i], tags[i]);
      assert tags[..i+1] == tags[..i] + [tags[i]];
      if tags[i].1.None? {
        assert Present(tags[..i]) + [] == Present(tags[..i]);
        continue;
      }
      TagSectionAppend(Present(tags[..i]), (tags[i].0, tags[i].1.value));
      Associate(measurement, TagSection(Present(tags[..i])), TagText((tags[i].0, tags[i].1.value)));
      text := text + TagText((tags[i].0, tags[i].1.value));
    }
    assert tags[..|tags|] == tags;
    text := text + Rest(numeric, stamp);
    if PlainName(measurement) {
      ReadLine(measurement, Present(tags), Rest(numeric, stamp));
      if CleanValues(numeric) { ReadPrintedPoint(measurement, Present(tags), numeric, stamp); }
    }
    line := Some(text);
  }
}

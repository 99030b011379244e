/**
 * One stripped line from the device, classified the way the real collection
 * loop does it: a JSON object, then the tagged `V:..,C:..,T:..` framing, then
 * (unless the line is a `#` comment) the positional `v,c,t` framing.
 */
module LineParser {
  import opened Wrappers
  import opened Text
  import opened Numbers
  import opened Sensor
  import Json

  /** What handling one line amounts to. */
  datatype Outcome =
    | Reading(t: Triple)  // handed to process_data as real data
    | Ignored             // a `#` debug line: nothing happens
    | Rejected            // an error is logged and nothing is processed
    | NoEffect            // dropped without a message

  datatype Tag = V | C | T

  /** The `data` dict that parse_arduino_csv fills in, one optional slot per tag. */
  datatype Tags = Tags(v: Option<real>, c: Option<real>, t: Option<real>) {
    function Get(tag: Tag): Option<real> {
      match tag
      case V => v
      case C => c
      case T => t
    }

    function Set(tag: Tag, x: real): (r: Tags)
      ensures r.Get(tag) == Some(x)
      ensures forall other :: other != tag ==> r.Get(other) == Get(other)
    {
      match tag
      case V => this.(v := Some(x))
      case C => this.(c := Some(x))
      case T => this.(t := Some(x))
    }
  }

  const NoTags := Tags(None, None, None)

  /**
   * One comma-separated piece of a tagged line, stripped and cut at its first
   * colon: the tag it sets and its value text, or `None` when it has no colon
   * or its key is not exactly `V`, `C` or `T`.
   */
  function Entry(part: string): Option<(Tag, string)> {
    var p := Strip(part);
    if ':' in p then
      var k := FirstIndex(p, ':');
      var key := p[..k];
      var value := p[k + 1..];
      if key == "V" then Some((V, value))
      else if key == "C" then Some((C, value))
      else if key == "T" then Some((T, value))
      else None
    else None
  }

  /** What one piece contributes: nothing, or a known tag with its converted value (`None` where `float()` raises). */
  datatype Piece = Other | Known(tag: Tag, value: Option<real>)

  function PieceOf(part: string): Piece {
    match Entry(part)
    case None => Other
    case Some((tag, text)) => Known(tag, ParseFloat(text))
  }

  /** `f` applied to each element of `s`, in order. */
  function Map<A, B>(f: A -> B, s: seq<A>): (r: seq<B>)
    ensures |r| == |s|
    decreases |s|
  {
    if s == [] then [] else Map(f, s[..|s| - 1]) + [f(s[|s| - 1])]
  }

  lemma {:induction false} MapAt<A, B>(f: A -> B, s: seq<A>, i: nat)
    requires i < |s|
    ensures Map(f, s)[i] == f(s[i])
    decreases |s|
  {
    var n := |s| - 1;
    if i < n {
      MapAt(f, s[..n], i);
    }
  }

  lemma {:induction false} MapPrefix<A, B>(f: A -> B, s: seq<A>, n: nat)
    requires n <= |s|
    ensures Map(f, s[..n]) == Map(f, s)[..n]
    decreases |s|
  {
    if n < |s| {
      var m := |s| - 1;
      assert s[..m][..n] == s[..n];
      MapPrefix(f, s[..m], n);
    } else {
      assert s[..n] == s;
    }
  }

  lemma MapSnoc<A, B>(f: A -> B, s: seq<A>, i: nat)
    requires i < |s|
    ensures Map(f, s[..i + 1]) == Map(f, s[..i]) + [f(s[i])]
  {
    assert s[..i + 1][..i] == s[..i];
  }

  /** The pieces of a split line, one per part. */
  function Pieces(parts: seq<string>): (ps: seq<Piece>)
    ensures |ps| == |parts|
  {
    Map(PieceOf, parts)
  }

  lemma PiecesAt(parts: seq<string>, i: nat)
    requires i < |parts|
    ensures Pieces(parts)[i] == PieceOf(parts[i])
  {
    MapAt(PieceOf, parts, i);
  }

  lemma PiecesPrefix(parts: seq<string>, n: nat)
    requires n <= |parts|
    ensures Pieces(parts[..n]) == Pieces(parts)[..n]
  {
    MapPrefix(PieceOf, parts, n);
  }

  /** The piece sets `tag`. */
  predicate Sets(p: Piece, tag: Tag) {
    p.Known? && p.tag == tag
  }

  /** The piece has a known tag whose value `float()` refuses. */
  predicate Unconvertible(p: Piece) {
    p.Known? && p.value.None?
  }

  /** Some piece has a known tag whose value `float()` refuses. */
  predicate AnyUnconvertible(ps: seq<Piece>) {
    exists i :: 0 <= i < |ps| && Unconvertible(ps[i])
  }

  /**
   * The pieces read left to right into the `data` dict; `None` as soon as
   * a conversion raises, which parse_arduino_csv catches and reports.
   */
  function Scan(ps: seq<Piece>): Option<Tags>
    decreases |ps|
  {
    if ps == [] then Some(NoTags) else Step(Scan(ps[..|ps| - 1]), ps[|ps| - 1])
  }

  /** One iteration of the loop: a failed conversion stays failed, a known tag overwrites its slot. */
  function Step(acc: Option<Tags>, p: Piece): Option<Tags> {
    match acc
    case None => None
    case Some(tags) =>
      match p
      case Other => Some(tags)
      case Known(tag, value) =>
        match value
        case None => None
        case Some(x) => Some(tags.Set(tag, x))
  }

  lemma ScanAppend(ps: seq<Piece>, p: Piece)
    ensures Scan(ps + [p]) == Step(Scan(ps), p)
  {
    assert (ps + [p])[..|ps|] == ps;
  }

  /** All three slots filled: the reading; otherwise `None`. */
  function Complete(tags: Tags): Option<Triple> {
    if tags.v.Some? && tags.c.Some? && tags.t.Some? then
      Some(Triple(tags.v.value, tags.c.value, tags.t.value))
    else None
  }

  /** What parse_arduino_csv returns for `line`. */
  function TaggedParse(line: string): Option<Triple> {
    ReadTags(Pieces(Split(line, ',')))
  }

  /** The reading the pieces make: `None` when a conversion fails or a tag is missing. */
  function ReadTags(ps: seq<Piece>): Option<Triple> {
    match Scan(ps)
    case None => None
    case Some(tags) => Complete(tags)
  }

  /**
   * One pass of parse_arduino_csv's loop over `part`: strip it, cut it at its
   * first colon, and store the converted value of a `V`, `C` or `T` key in
   * `data`; `None` where `float()` raises.
   */
  method ReadPart(part: string, data: Tags) returns (r: Option<Tags>)
    ensures r == Step(Some(data), PieceOf(part))
  {
    var p := Strip(part);
    if ':' in p {
      var k := FirstIndex(p, ':');
      var key, value := p[..k], p[k + 1..];
      if key == "V" {
        var x := ParseFloat(value);
        if x.None? {
          return None;
        }
        return Some(data.Set(V, x.value));
      } else if key == "C" {
        var x := ParseFloat(value);
        if x.None? {
          return None;
        }
        return Some(data.Set(C, x.value));
      } else if key == "T" {
        var x := ParseFloat(value);
        if x.None? {
          return None;
        }
        return Some(data.Set(T, x.value));
      }
    }
    return Some(data);
  }

  /** parse_arduino_csv: the loop over the comma-separated pieces of `line`. */
  method ParseArduinoCsv(line: string) returns (r: Option<Triple>)
    ensures r == TaggedParse(line)
  {
    var parts := Split(line, ',');
    var data := NoTags;
    var i := 0;
    while i < |parts|
      invariant 0 <= i <= |parts|
      invariant Scan(Pieces(parts[..i])) == Some(data)
    {
      MapSnoc(PieceOf, parts, i);
      ScanAppend(Pieces(parts[..i]), PieceOf(parts[i]));
      var next := ReadPart(parts[i], data);
      if next.None? {
        FailureSticks(parts, i + 1);
        return None;
      }
      data := next.value;
      i := i + 1;
    }
    assert parts[..i] == parts;
    if data.v.Some? && data.c.Some? && data.t.Some? {
      r := Some(Triple(data.v.value, data.c.value, data.t.value));
    } else {
      r := None;
    }
  }

  /** A conversion failure among the first `n` parts fails the whole line. */
  lemma FailureSticks(parts: seq<string>, n: nat)
    requires n <= |parts| && Scan(Pieces(parts[..n])).None?
    ensures Scan(Pieces(parts)).None?
  {
    PiecesPrefix(parts, n);
    ScanFailureSticks(Pieces(parts), n);
  }

  /** Once a conversion has failed, reading further pieces cannot recover. */
  lemma {:induction false} ScanFailureSticks(ps: seq<Piece>, n: nat)
    requires n <= |ps| && Scan(ps[..n]).None?
    ensures Scan(ps).None?
    decreases |ps| - n
  {
    if n < |ps| {
      assert ps[..n + 1][..n] == ps[..n];
      ScanFailureSticks(ps, n + 1);
    } else {
      assert ps[..n] == ps;
    }
  }

  /** The scan fails exactly when some piece carries a known tag with an unconvertible value. */
  lemma {:induction false} ScanFails(ps: seq<Piece>)
    ensures Scan(ps).None? <==> AnyUnconvertible(ps)
    decreases |ps|
  {
    if ps != [] {
      var n := |ps| - 1;
      var init := ps[..n];
      ScanFails(init);
      if exists i :: 0 <= i < |init| && Unconvertible(init[i]) {
        var i :| 0 <= i < |init| && Unconvertible(init[i]);
        assert Unconvertible(ps[i]);
      }
      if exists i :: 0 <= i < |ps| && Unconvertible(ps[i]) {
        var i :| 0 <= i < |ps| && Unconvertible(ps[i]);
        if i < n {
          assert Unconvertible(init[i]);
        }
      }
    }
  }

  /** `ps[i]` is the last piece that sets `tag`. */
  predicate LastSetting(ps: seq<Piece>, tag: Tag, i: int) {
    0 <= i < |ps| && Sets(ps[i], tag)
    && forall j :: i < j < |ps| ==> !Sets(ps[j], tag)
  }

  /**
   * When the scan succeeds, a slot is empty exactly when no piece sets its
   * tag, and otherwise holds the value of the last piece that sets it.
   */
  lemma {:induction false} ScanLastWins(ps: seq<Piece>, tag: Tag)
    requires Scan(ps).Some?
    ensures Scan(ps).value.Get(tag).None? <==> forall i :: 0 <= i < |ps| ==> !Sets(ps[i], tag)
    ensures forall i :: LastSetting(ps, tag, i) ==> Scan(ps).value.Get(tag) == ps[i].value
    decreases |ps|
  {
    if ps != [] {
      var n := |ps| - 1;
      var init := ps[..n];
      assert Scan(init).Some?;
      ScanLastWins(init, tag);
      if Sets(ps[n], tag) {
        forall i | LastSetting(ps, tag, i)
          ensures i == n
        {
        }
      } else {
        forall i | LastSetting(ps, tag, i)
          ensures LastSetting(init, tag, i)
        {
        }
      }
    }
  }

  /** Some piece sets `tag`. */
  predicate Seen(ps: seq<Piece>, tag: Tag) {
    exists i :: 0 <= i < |ps| && Sets(ps[i], tag)
  }

  /**
   * The pieces make a reading exactly when no known tag has an unconvertible
   * value and each of V, C and T is present; its values are those of the
   * last piece carrying each tag.
   */
  lemma ReadTagsSpec(ps: seq<Piece>)
    ensures ReadTags(ps).Some? <==>
      !AnyUnconvertible(ps) && Seen(ps, V) && Seen(ps, C) && Seen(ps, T)
    ensures forall i :: ReadTags(ps).Some? ==>
      && (LastSetting(ps, V, i) ==> ps[i].value == Some(ReadTags(ps).value.voltage))
      && (LastSetting(ps, C, i) ==> ps[i].value == Some(ReadTags(ps).value.current))
      && (LastSetting(ps, T, i) ==> ps[i].value == Some(ReadTags(ps).value.temperature))
  {
    ScanFails(ps);
    if Scan(ps).Some? {
      ScanLastWins(ps, V);
      ScanLastWins(ps, C);
      ScanLastWins(ps, T);
    }
  }

  /** A piece with no colon or an unknown key leaves the scan as it was, wherever it stands. */
  lemma {:induction false} OtherPieceInvisible(front: seq<Piece>, back: seq<Piece>)
    ensures Scan(front + [Other] + back) == Scan(front + back)
    decreases |back|
  {
    if back == [] {
      assert front + [Other] + back == front + [Other];
      assert (front + [Other])[..|front|] == front;
      assert front + back == front;
    } else {
      var n := |back| - 1;
      OtherPieceInvisible(front, back[..n]);
      assert (front + [Other] + back)[..|front| + 1 + n] == front + [Other] + back[..n];
      assert (front + back)[..|front| + n] == front + back[..n];
    }
  }

  /** What the positional branch does with `line`: exactly three pieces, all numbers, in the order voltage, current, temperature. */
  function PositionalOutcome(line: string): Outcome {
    var parts := Split(line, ',');
    if |parts| != 3 then NoEffect
    else
      match (ParseFloat(parts[0]), ParseFloat(parts[1]), ParseFloat(parts[2]))
      case (Some(v), Some(c), Some(t)) => Reading(Triple(v, c, t))
      case _ => Rejected
  }

  /** What the tagged branch does with `line`. */
  function TaggedOutcome(line: string): Outcome {
    if Scan(Pieces(Split(line, ','))).None? then Rejected
    else
      match TaggedParse(line)
      case None => NoEffect
      case Some(t) => Reading(t)
  }

  /** The reading process_data makes of a decoded object: `float(data.get(key, 0))` for each field. */
  function JsonReading(members: seq<(string, Json.Value)>): Option<Triple> {
    match (Json.FieldOrZero(members, "voltage"), Json.FieldOrZero(members, "current"),
           Json.FieldOrZero(members, "temperature"))
    case (Some(v), Some(c), Some(t)) => Some(Triple(v, c, t))
    case _ => None
  }

  /** What the JSON branch does with `line`. */
  function JsonOutcome(line: string): Outcome {
    match Json.Decode(line)
    case Some(v) =>
      if v.Object? then
        match JsonReading(v.members)
        case None => Rejected
        case Some(t) => Reading(t)
      else Rejected
    case None => Rejected
  }

  predicate IsJsonFramed(line: string) {
    StartsWith(line, "{") && EndsWith(line, "}")
  }

  predicate IsTaggedFramed(line: string) {
    StartsWith(line, "V:") && Contains(line, "C:") && Contains(line, "T:")
  }

  /** The dispatch of the real collection loop: the first framing whose guard holds decides. */
  function ClassifyLine(line: string): Outcome {
    if IsJsonFramed(line) then JsonOutcome(line)
    else if IsTaggedFramed(line) then TaggedOutcome(line)
    else if !StartsWith(line, "#") then PositionalOutcome(line)
    else Ignored
  }

  /** A line is ignored exactly when it is a `#` comment; a comment is never JSON or tagged. */
  lemma CommentIgnored(line: string)
    ensures ClassifyLine(line) == Ignored <==> StartsWith(line, "#")
  {
    if StartsWith(line, "#") {
      assert line[0] == '#';
      assert !StartsWith(line, "{") && !StartsWith(line, "V:");
    }
  }

  /**
   * A line that reaches the positional branch yields a reading exactly when
   * it has two commas and its three pieces convert, and is dropped silently
   * exactly when it does not have two commas.
   */
  lemma PositionalSpec(line: string)
    requires !IsJsonFramed(line) && !IsTaggedFramed(line) && !StartsWith(line, "#")
    ensures var parts := Split(line, ',');
      ClassifyLine(line).Reading? <==>
        |parts| == 3
        && ParseFloat(parts[0]).Some? && ParseFloat(parts[1]).Some? && ParseFloat(parts[2]).Some?
    ensures ClassifyLine(line) == NoEffect <==> Count(line, ',') != 2
    ensures var parts := Split(line, ',');
      ClassifyLine(line).Reading? ==>
        ClassifyLine(line).t == Triple(ParseFloat(parts[0]).value, ParseFloat(parts[1]).value, ParseFloat(parts[2]).value)
  {
    assert ClassifyLine(line) == PositionalOutcome(line);
    SplitCount(line, ',');
  }

  /**
   * A tagged line yields a reading exactly when parse_arduino_csv returns
   * one, and that reading; a conversion failure is reported, never raised.
   */
  lemma TaggedSpec(line: string)
    requires !IsJsonFramed(line) && IsTaggedFramed(line)
    ensures ClassifyLine(line).Reading? <==> TaggedParse(line).Some?
    ensures TaggedParse(line).Some? ==> ClassifyLine(line) == Reading(TaggedParse(line).value)
    ensures ClassifyLine(line) == Rejected <==> AnyUnconvertible(Pieces(Split(line, ',')))
  {
    var ps := Pieces(Split(line, ','));
    assert ClassifyLine(line) == TaggedOutcome(line);
    ScanFails(ps);
  }

  /** A line with no comma and no framing, such as `garbage`, is dropped without a message. */
  lemma GarbageIsDropped()
    ensures ClassifyLine("garbage") == NoEffect
  {
    var line := "garbage";
    assert line[0] == 'g';
    assert Count(line, ',') == 0;
    PositionalSpec(line);
  }

  /** A JSON field that is absent counts as 0, not as a failure. */
  lemma JsonMissingFieldIsZero(members: seq<(string, Json.Value)>, key: string)
    requires forall j :: 0 <= j < |members| ==> members[j].0 != key
    ensures Json.FieldOrZero(members, key) == Some(0.0)
  {
    Json.LookupLast(members, key);
  }

  /** A stripped `K:value` piece whose key is `tag`'s letter is an entry for `tag` with the text after the colon. */
  lemma KnownEntry(part: string, tag: Tag)
    requires |part| >= 3 && part[1] == ':' && !IsSpace(part[|part| - 1])
    requires part[0] == (match tag case V => 'V' case C => 'C' case T => 'T')
    ensures Entry(part) == Some((tag, part[2..]))
  {
    StripUnchanged(part, StrSpaces);
    assert FirstIndex(part, ':') == 1;
    assert part[..1] == [part[0]];
  }

  /** A stripped `K:value` piece whose key is `tag`'s letter sets that tag to the value `float()` makes of the rest. */
  lemma KnownPiece(part: string, tag: Tag, x: real)
    requires |part| >= 3 && part[1] == ':' && !IsSpace(part[|part| - 1])
    requires part[0] == (match tag case V => 'V' case C => 'C' case T => 'T')
    requires ParseFloat(part[2..]) == Some(x)
    ensures PieceOf(part) == Known(tag, Some(x))
  {
    KnownEntry(part, tag);
  }

  /** Three pieces are read in order, left to right. */
  lemma ScanThree(ps: seq<Piece>)
    requires |ps| == 3
    ensures Scan(ps) == Step(Step(Step(Some(NoTags), ps[0]), ps[1]), ps[2])
  {
    var one, two := ps[..1], ps[..2];
    assert two[..1] == one && one[..0] == [];
    assert Scan(one) == Step(Some(NoTags), ps[0]);
    assert Scan(two) == Step(Scan(one), ps[1]);
  }

  lemma TaggedFraming(line: string)
    requires line == "V:4.85,C:1.23,T:24.5"
    ensures !IsJsonFramed(line) && IsTaggedFramed(line)
  {
    assert line[0] == 'V';
    assert OccursAt(line, "C:", 7) && OccursAt(line, "T:", 14);
    ContainsAt(line, "C:");
    ContainsAt(line, "T:");
  }

  lemma PiecesThree(parts: seq<string>)
    requires |parts| == 3
    ensures Pieces(parts) == [PieceOf(parts[0]), PieceOf(parts[1]), PieceOf(parts[2])]
  {
    PiecesAt(parts, 0);
    PiecesAt(parts, 1);
    PiecesAt(parts, 2);
  }

  /** The pieces of the tagged example line. */
  lemma TaggedPieces(parts: seq<string>)
    requires parts == ["V:4.85", "C:1.23", "T:24.5"]
    ensures Pieces(parts) == [Known(V, Some(4.85)), Known(C, Some(1.23)), Known(T, Some(24.5))]
  {
    FourPointEightyFive(parts[0][2..]);
    OnePointTwentyThree(parts[1][2..]);
    TwentyFourPointFive(parts[2][2..]);
    KnownPiece(parts[0], V, 4.85);
    KnownPiece(parts[1], C, 1.23);
    KnownPiece(parts[2], T, 24.5);
    PiecesThree(parts);
  }

  lemma TaggedSplit(line: string)
    requires line == "V:4.85,C:1.23,T:24.5"
    ensures Split(line, ',') == ["V:4.85", "C:1.23", "T:24.5"]
  {
    var parts := ["V:4.85", "C:1.23", "T:24.5"];
    assert Join(parts, ',') == line;
    SplitJoin(parts, ',');
  }

  /** parse_arduino_csv reads the tagged example line as its three values. */
  lemma TaggedParseExample(line: string)
    requires line == "V:4.85,C:1.23,T:24.5"
    ensures TaggedParse(line) == Some(Triple(4.85, 1.23, 24.5))
  {
    TaggedSplit(line);
    var parts := Split(line, ',');
    TaggedPieces(parts);
    var ps := Pieces(parts);
    ScanThree(ps);
    assert Scan(ps) == Some(Tags(Some(4.85), Some(1.23), Some(24.5)));
  }

  /** The tagged framing's own example, `V:4.85,C:1.23,T:24.5`, is that reading. */
  lemma TaggedExample(line: string)
    requires line == "V:4.85,C:1.23,T:24.5"
    ensures ClassifyLine(line) == Reading(Triple(4.85, 1.23, 24.5))
  {
    TaggedParseExample(line);
    TaggedFraming(line);
    TaggedSpec(line);
  }

  lemma PositionalFraming(line: string)
    requires line == "3.3,0.5,21.0"
    ensures !IsJsonFramed(line) && !IsTaggedFramed(line) && !StartsWith(line, "#")
  {
    assert line[0] == '3';
  }

  /** The positional framing's example, `3.3,0.5,21.0`, is voltage, current and temperature in that order. */
  lemma PositionalExample(line: string)
    requires line == "3.3,0.5,21.0"
    ensures ClassifyLine(line) == Reading(Triple(3.3, 0.5, 21.0))
  {
    var parts := ["3.3", "0.5", "21.0"];
    assert Join(parts, ',') == line;
    SplitJoin(parts, ',');
    ThreePointThree(parts[0]);
    ZeroPointFive(parts[1]);
    TwentyOnePointZero(parts[2]);
    PositionalFraming(line);
    PositionalSpec(line);
  }

  /** A JSON object with only a voltage, `{"voltage":3.3}`, reads 0 for the fields it lacks. */
  lemma JsonExample(line: string)
    requires line == "{\"voltage\":3.3}"
    ensures ClassifyLine(line) == Reading(Triple(3.3, 0.0, 0.0))
  {
    Json.DecodeExample(line);
    var members := [("voltage", Json.Number(3.3))];
    assert Json.Lookup(members, "voltage") == Some(Json.Number(3.3));
    JsonMissingFieldIsZero(members, "current");
    JsonMissingFieldIsZero(members, "temperature");
    assert IsJsonFramed(line);
  }

  /** The JSON line with all three fields is the reading of those three values. */
  lemma JsonFieldsExample(line: string)
    requires line == "{\"voltage\":3.3," + "\"current\":0.5," + "\"temperature\":21.0}"
    ensures ClassifyLine(line) == Reading(Triple(3.3, 0.5, 21.0))
  {
    Json.DecodeFieldsExample(line);
    var members := [("voltage", Json.Number(3.3)), ("current", Json.Number(0.5)), ("temperature", Json.Number(21.0))];
    assert Json.Lookup(members, "voltage") == Some(Json.Number(3.3)) by {
      assert members[..2][..1] == [("voltage", Json.Number(3.3))];
    }
    assert Json.Lookup(members, "current") == Some(Json.Number(0.5)) by {
      assert members[..2] == [("voltage", Json.Number(3.3)), ("current", Json.Number(0.5))];
    }
    assert Json.Lookup(members, "temperature") == Some(Json.Number(21.0));
    assert JsonReading(members) == Some(Triple(3.3, 0.5, 21.0));
    Json.FieldsLayoutOf(line);
    assert line[..1] == "{" && line[|line| - 1..] == "}";
    assert IsJsonFramed(line);
  }
}

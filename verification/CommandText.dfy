/** The `|`-separated text of the commands one node sends another. */
module CommandText {
  import opened Common
  import opened Decimal
  import opened Texts

  /** The number fields carry the ranges of their Rust types. */
  datatype Command =
    | EstablishTensorStream(inferenceId: nat, targetPeerId: string)
    | JoinPipeline(inferenceId: nat, modelFileId: string, device: string, layerStart: nat, layerEnd: nat)
    | ProfileRequest(modelId: string, layerCount: nat, device: string)
    | ExecRemote(command: string, paramsJson: string)
  {
    predicate Valid() {
      match this
      case EstablishTensorStream(i, _) => i <= MAX_U64
      case JoinPipeline(i, _, _, s, e) => i <= MAX_U64 && s <= MAX_U64 && e <= MAX_U64
      case ProfileRequest(_, n, _) => n <= MAX_U32
      case ExecRemote(_, _) => true
    }
  }

  datatype ParseError = FieldCount(expected: nat, actual: nat) | BadNumber(field: nat) | UnknownPrefix(prefix: string)

  const ESTABLISH := "ESTABLISH_TENSOR_STREAM"
  const JOIN := "JOIN_PIPELINE"
  const PROFILE := "PROFILE"
  const EXEC := "EXEC"

  function Serialize(c: Command): string {
    match c
    case EstablishTensorStream(i, peer) => ESTABLISH + "|" + Text(i) + "|" + peer
    case JoinPipeline(i, m, d, s, e) => JOIN + "|" + Text(i) + "|" + m + "|" + d + "|" + Text(s) + "|" + Text(e)
    case ProfileRequest(m, n, d) => PROFILE + "|" + m + "|" + Text(n) + "|" + d
    case ExecRemote(c, p) => EXEC + "|" + c + "|" + p
  }

  /** The texts on the wire, written out. */
  lemma WireTexts(c: Command)
    ensures c.EstablishTensorStream? ==>
      Serialize(c) == "ESTABLISH_TENSOR_STREAM|" + Text(c.inferenceId) + "|" + c.targetPeerId
    ensures c.JoinPipeline? ==>
      Serialize(c) == "JOIN_PIPELINE|" + Text(c.inferenceId) + "|" + c.modelFileId + "|" + c.device
                      + "|" + Text(c.layerStart) + "|" + Text(c.layerEnd)
    ensures c.ProfileRequest? ==>
      Serialize(c) == "PROFILE|" + c.modelId + "|" + Text(c.layerCount) + "|" + c.device
    ensures c.ExecRemote? ==> Serialize(c) == "EXEC|" + c.command + "|" + c.paramsJson
  {
    assert ESTABLISH + "|" == "ESTABLISH_TENSOR_STREAM|" && JOIN + "|" == "JOIN_PIPELINE|";
    assert PROFILE + "|" == "PROFILE|" && EXEC + "|" == "EXEC|";
  }

  function ParseEstablish(parts: seq<string>): Result<Command, ParseError> {
    if |parts| != 3 then Err(FieldCount(3, |parts|))
    else
      var i := Parse(parts[1], MAX_U64);
      if i.None? then Err(BadNumber(1)) else Ok(EstablishTensorStream(i.value, parts[2]))
  }

  function ParseJoin(parts: seq<string>): Result<Command, ParseError> {
    if |parts| != 6 then Err(FieldCount(6, |parts|))
    else
      var i := Parse(parts[1], MAX_U64);
      var s := Parse(parts[4], MAX_U64);
      var e := Parse(parts[5], MAX_U64);
      if i.None? then Err(BadNumber(1))
      else if s.None? then Err(BadNumber(4))
      else if e.None? then Err(BadNumber(5))
      else Ok(JoinPipeline(i.value, parts[2], parts[3], s.value, e.value))
  }

  function ParseProfile(parts: seq<string>): Result<Command, ParseError> {
    if |parts| != 4 then Err(FieldCount(4, |parts|))
    else
      var n := Parse(parts[2], MAX_U32);
      if n.None? then Err(BadNumber(2)) else Ok(ProfileRequest(parts[1], n.value, parts[3]))
  }

  function ParseExec(parts: seq<string>): Result<Command, ParseError> {
    if |parts| != 3 then Err(FieldCount(3, |parts|)) else Ok(ExecRemote(parts[1], parts[2]))
  }

  function ParseParts(parts: seq<string>): Result<Command, ParseError>
    requires parts != []
  {
    if parts[0] == ESTABLISH then ParseEstablish(parts)
    else if parts[0] == JOIN then ParseJoin(parts)
    else if parts[0] == PROFILE then ParseProfile(parts)
    else if parts[0] == EXEC then ParseExec(parts)
    else Err(UnknownPrefix(parts[0]))
  }

  function ParseCommand(text: string): Result<Command, ParseError> {
    ParseParts(Split(text, '|'))
  }

  // ---------------------------------------------------------------- fields

  /** The fields of the text, in order. */
  function Fields(c: Command): (fields: seq<string>)
    ensures |fields| >= 3
  {
    match c
    case EstablishTensorStream(i, peer) => [ESTABLISH, Text(i), peer]
    case JoinPipeline(i, m, d, s, e) => [JOIN, Text(i), m, d, Text(s), Text(e)]
    case ProfileRequest(m, n, d) => [PROFILE, m, Text(n), d]
    case ExecRemote(c, p) => [EXEC, c, p]
  }

  /** No string field of the command holds the separator. */
  ghost predicate Unbarred(c: Command) {
    match c
    case EstablishTensorStream(_, peer) => Free(peer, '|')
    case JoinPipeline(_, m, d, _, _) => Free(m, '|') && Free(d, '|')
    case ProfileRequest(m, _, d) => Free(m, '|') && Free(d, '|')
    case ExecRemote(c, p) => Free(c, '|') && Free(p, '|')
  }

  lemma JoinThree(a: string, b: string, c: string)
    ensures Join([a, b, c], '|') == a + "|" + b + "|" + c
  {
    assert [a, b, c][1..] == [b, c] && [b, c][1..] == [c];
    assert Join([b, c], '|') == b + ['|'] + Join([c], '|');
    assert Join([a, b, c], '|') == a + ['|'] + Join([b, c], '|');
    assert a + ['|'] + (b + ['|'] + c) == a + "|" + b + "|" + c;
  }

  lemma JoinFour(a: string, b: string, c: string, d: string)
    ensures Join([a, b, c, d], '|') == a + "|" + b + "|" + c + "|" + d
  {
    assert [a, b, c, d][1..] == [b, c, d];
    JoinThree(b, c, d);
  }

  lemma JoinSix(a: string, b: string, c: string, d: string, e: string, f: string)
    ensures Join([a, b, c, d, e, f], '|') == a + "|" + b + "|" + c + "|" + d + "|" + e + "|" + f
  {
    assert [a, b, c, d, e, f][1..] == [b, c, d, e, f] && [b, c, d, e, f][1..] == [c, d, e, f];
    JoinFour(c, d, e, f);
  }

  lemma SerializeJoinsFields(c: Command)
    ensures Serialize(c) == Join(Fields(c), '|')
  {
    match c
    case EstablishTensorStream(i, peer) => JoinThree(ESTABLISH, Text(i), peer);
    case JoinPipeline(i, m, d, s, e) => JoinSix(JOIN, Text(i), m, d, Text(s), Text(e));
    case ProfileRequest(m, n, d) => JoinFour(PROFILE, m, Text(n), d);
    case ExecRemote(c, p) => JoinThree(EXEC, c, p);
  }

  lemma UnbarredFields(c: Command)
    ensures Unbarred(c) <==> forall i :: 0 <= i < |Fields(c)| ==> Free(Fields(c)[i], '|')
  {
    var fields := Fields(c);
    match c
    case EstablishTensorStream(_, peer) => assert fields[2] == peer;
    case JoinPipeline(_, m, d, _, _) => assert fields[2] == m && fields[3] == d;
    case ProfileRequest(m, _, d) => assert fields[1] == m && fields[3] == d;
    case ExecRemote(c, p) => assert fields[1] == c && fields[2] == p;
  }

  /** What the parser makes of the fields of a command is the command. */
  lemma ParseOfFields(c: Command)
    requires c.Valid()
    ensures ParseParts(Fields(c)) == Ok(c)
  {
    match c
    case EstablishTensorStream(i, _) => ParseOfText(i, MAX_U64);
    case JoinPipeline(i, _, _, s, e) => ParseOfText(i, MAX_U64); ParseOfText(s, MAX_U64); ParseOfText(e, MAX_U64);
    case ProfileRequest(_, n, _) => ParseOfText(n, MAX_U32);
    case ExecRemote(_, _) =>
  }

  /** The right prefix with the wrong number of fields is refused. */
  lemma WrongCountFails(c: Command, parts: seq<string>)
    requires parts != [] && parts[0] == Fields(c)[0] && |parts| != |Fields(c)|
    ensures ParseParts(parts).Err?
  {
    match c
    case EstablishTensorStream(_, _) =>
    case JoinPipeline(_, _, _, _, _) => assert JOIN[0] != ESTABLISH[0];
    case ProfileRequest(_, _, _) => assert PROFILE[0] != ESTABLISH[0] && PROFILE[0] != JOIN[0];
    case ExecRemote(_, _) => assert |EXEC| != |ESTABLISH|;
  }

  // ---------------------------------------------------------------- separators add up

  function Bars(parts: seq<string>): nat {
    if parts == [] then 0 else Count(parts[0], '|') + Bars(parts[1..])
  }

  lemma {:induction false} BarsOfJoin(parts: seq<string>)
    requires parts != []
    ensures Count(Join(parts, '|'), '|') == Bars(parts) + |parts| - 1
    decreases |parts|
  {
    if |parts| > 1 {
      BarsOfJoin(parts[1..]);
      CountConcat(parts[0], ['|'], '|');
      CountConcat(parts[0] + ['|'], Join(parts[1..], '|'), '|');
    }
  }

  lemma {:induction false} NoBars(parts: seq<string>)
    ensures Bars(parts) == 0 <==> forall i :: 0 <= i < |parts| ==> Free(parts[i], '|')
    decreases |parts|
  {
    if parts != [] {
      NoBars(parts[1..]);
      CountZero(parts[0], '|');
      assert forall i :: 1 <= i < |parts| ==> parts[i] == parts[1..][i - 1];
      assert forall i :: 0 <= i < |parts| - 1 ==> parts[1..][i] == parts[i + 1];
    }
  }

  lemma JoinedFieldsSeen(fields: seq<string>)
    requires |fields| > 1 && Free(fields[0], '|')
    ensures var parts := Split(Join(fields, '|'), '|');
      |parts| == |fields| + Bars(fields) && parts[0] == fields[0]
  {
    BarsOfJoin(fields);
    SplitCount(Join(fields, '|'), '|');
    SplitFirst(fields[0], '|', Join(fields[1..], '|'));
  }

  lemma PrefixUnbarred(c: Command)
    ensures Free(Fields(c)[0], '|')
  {
  }

  /** The text has as many fields as it shows separators, plus one, and starts with the prefix of the command. */
  lemma FieldsSeen(c: Command)
    ensures var parts := Split(Serialize(c), '|');
      |parts| == |Fields(c)| + Bars(Fields(c)) && parts[0] == Fields(c)[0]
  {
    var fields := Fields(c);
    SerializeJoinsFields(c);
    PrefixUnbarred(c);
    JoinedFieldsSeen(fields);
  }

  lemma UnbarredSurvives(c: Command)
    requires c.Valid() && Unbarred(c)
    ensures ParseCommand(Serialize(c)) == Ok(c)
  {
    UnbarredFields(c);
    SerializeJoinsFields(c);
    SplitOfJoin(Fields(c), '|');
    ParseOfFields(c);
  }

  lemma BarredIsRefused(c: Command)
    requires !Unbarred(c)
    ensures ParseCommand(Serialize(c)).Err?
  {
    UnbarredFields(c);
    NoBars(Fields(c));
    FieldsSeen(c);
    WrongCountFails(c, Split(Serialize(c), '|'));
  }

  /**
    A command survives the trip exactly when its strings are free of the separator; otherwise the parser
    refuses it.
  */
  lemma RoundTrip(c: Command)
    requires c.Valid()
    ensures ParseCommand(Serialize(c)) == Ok(c) <==> Unbarred(c)
    ensures !Unbarred(c) ==> ParseCommand(Serialize(c)).Err?
  {
    if Unbarred(c) {
      UnbarredSurvives(c);
    } else {
      BarredIsRefused(c);
    }
  }

  /** Whatever the parser accepts is a command in range, and writing that command gives a text with the same meaning. */
  lemma AcceptedIsStable(text: string)
    requires ParseCommand(text).Ok?
    ensures ParseCommand(text).value.Valid()
    ensures ParseCommand(Serialize(ParseCommand(text).value)) == ParseCommand(text)
  {
    var c := ParseCommand(text).value;
    PiecesAreFree(text, '|');
    var parts := Split(text, '|');
    assert forall i :: 0 <= i < |parts| ==> Free(parts[i], '|');
    assert Unbarred(c);
    RoundTrip(c);
  }

  /** Two commands in range with unbarred strings never share a text. */
  lemma SerializeIsInjective(c: Command, d: Command)
    requires c.Valid() && d.Valid() && Unbarred(c) && Serialize(c) == Serialize(d)
    ensures c == d
  {
    RoundTrip(c);
    RoundTrip(d);
  }
}

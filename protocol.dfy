/**
 * The text protocol between the clients and the server
 * (`network.GameProtocol`).  A message is `TYPE|PAYLOAD`, or a bare `TYPE`;
 * a move payload is `r1,c1,r2,c2` in decimal.  Java's `String.split(",")`
 * and `Integer.parseInt` are modelled here by `Split` and `ParseInt`.
 */
module Protocol {
  import opened JavaInt

  const Connect: string := "CONNECT"
  const Connected: string := "CONNECTED"
  const WaitForPlayer: string := "WAIT"
  const Start: string := "START"
  const Move: string := "MOVE"
  const MoveOk: string := "MOVE_OK"
  const MoveInvalid: string := "MOVE_INVALID"
  const OpponentMove: string := "OPPONENT_MOVE"
  const YourTurn: string := "YOUR_TURN"
  const GameOver: string := "GAME_OVER"
  const Disconnect: string := "DISCONNECT"
  const Error: string := "ERROR"

  const Separator: char := '|'
  const FieldSeparator: char := ','

  // ---------------------------------------------------------------------
  // Searching a string
  // ---------------------------------------------------------------------

  /** `s.indexOf(c)`: the first position of `c` in `s`, if any. */
  function IndexOf(s: string, c: char): (r: Option<nat>)
    ensures r.None? <==> c !in s
    ensures r.Some? ==> r.value < |s| && s[r.value] == c && c !in s[..r.value]
  {
    if |s| == 0 then None
    else if s[0] == c then Some(0)
    else
      match IndexOf(s[1..], c)
      case None => None
      case Some(i) =>
        assert s[..i + 1] == [s[0]] + s[1..][..i];
        Some(i + 1)
  }

  /** The first `c` of `t + [c] + x` is the one after `t` when `t` holds none. */
  lemma IndexAfterPrefix(t: string, c: char, x: string)
    requires c !in t
    ensures IndexOf(t + [c] + x, c) == Some(|t|)
  {
    var m := t + [c] + x;
    assert m[|t|] == c;
    assert forall j :: 0 <= j < |t| ==> m[j] == t[j];
    assert forall j :: 0 <= j < |t| ==> m[..|t|][j] == t[j];
  }

  // ---------------------------------------------------------------------
  // Messages
  // ---------------------------------------------------------------------

  /** `getMessageType`: the text before the first `|`, the whole message without one, `""` for `null` or `""`. */
  function MessageType(m: Option<string>): (r: string)
    ensures m.None? || m.value == [] ==> r == []
    ensures m.Some? && Separator !in m.value ==> r == m.value
    ensures m.Some? && Separator in m.value ==> Separator !in r && r + [Separator] <= m.value
  {
    if m.None? || m.value == [] then []
    else
      match IndexOf(m.value, Separator)
      case None => m.value
      case Some(i) =>
        assert m.value[..i] + [Separator] == m.value[..i + 1];
        m.value[..i]
  }

  /** `getMessageContent`: the text after the first `|`, or `""` when there is none. */
  function MessageContent(m: Option<string>): (r: string)
    ensures m.None? || Separator !in m.value ==> r == []
    ensures m.Some? && Separator in m.value ==> MessageType(m) + [Separator] + r == m.value
  {
    if m.None? || m.value == [] then []
    else
      match IndexOf(m.value, Separator)
      case None => []
      case Some(i) =>
        assert m.value == m.value[..i] + [Separator] + m.value[i + 1..];
        m.value[i + 1..]
  }

  /** A message built as `type + "|" + content` splits back into the two, whatever the content holds. */
  lemma TypedMessage(t: string, x: string)
    requires Separator !in t
    ensures MessageType(Some(t + [Separator] + x)) == t
    ensures MessageContent(Some(t + [Separator] + x)) == x
  {
    IndexAfterPrefix(t, Separator, x);
    var m := t + [Separator] + x;
    assert m[..|t|] == t;
    assert m[|t| + 1..] == x;
  }

  /** `createConnectMessage`. */
  function ConnectMessage(playerName: string): (m: string)
    ensures MessageType(Some(m)) == Connect && MessageContent(Some(m)) == playerName
  {
    TypedMessage(Connect, playerName);
    Connect + [Separator] + playerName
  }

  /** `createStartMessage`. */
  function StartMessage(color: string): (m: string)
    ensures MessageType(Some(m)) == Start && MessageContent(Some(m)) == color
  {
    TypedMessage(Start, color);
    Start + [Separator] + color
  }

  /** `createGameOverMessage`. */
  function GameOverMessage(message: string): (m: string)
    ensures MessageType(Some(m)) == GameOver && MessageContent(Some(m)) == message
  {
    TypedMessage(GameOver, message);
    GameOver + [Separator] + message
  }

  /** `createErrorMessage`. */
  function ErrorMessage(message: string): (m: string)
    ensures MessageType(Some(m)) == Error && MessageContent(Some(m)) == message
  {
    TypedMessage(Error, message);
    Error + [Separator] + message
  }

  /** The payload `r1,c1,r2,c2` that Java's string concatenation writes. */
  function MovePayload(r1: Int32, c1: Int32, r2: Int32, c2: Int32): string {
    IntToString(r1) + [FieldSeparator] + IntToString(c1) + [FieldSeparator] +
    IntToString(r2) + [FieldSeparator] + IntToString(c2)
  }

  /** `createMoveMessage`: it parses back to the four coordinates, negative ones included. */
  function MoveMessage(r1: Int32, c1: Int32, r2: Int32, c2: Int32): (m: string)
    ensures MessageType(Some(m)) == Move
    ensures ParseMove(MessageContent(Some(m))) == [r1, c1, r2, c2]
  {
    TypedMessage(Move, MovePayload(r1, c1, r2, c2));
    PayloadRoundTrip(r1, c1, r2, c2);
    Move + [Separator] + MovePayload(r1, c1, r2, c2)
  }

  /** `createOpponentMoveMessage`: it parses back to the four coordinates. */
  function OpponentMoveMessage(r1: Int32, c1: Int32, r2: Int32, c2: Int32): (m: string)
    ensures MessageType(Some(m)) == OpponentMove
    ensures ParseMove(MessageContent(Some(m))) == [r1, c1, r2, c2]
  {
    TypedMessage(OpponentMove, MovePayload(r1, c1, r2, c2));
    PayloadRoundTrip(r1, c1, r2, c2);
    OpponentMove + [Separator] + MovePayload(r1, c1, r2, c2)
  }

  /** A message that holds a `|` is its type, the `|`, and its content. */
  lemma TypeAndContent(m: string)
    requires Separator in m
    ensures MessageType(Some(m)) + [Separator] + MessageContent(Some(m)) == m
  {
  }

  /** A message without `|` is all type and no content; so are `null` and `""`. */
  lemma BareMessage(m: Option<string>)
    requires m.None? || Separator !in m.value
    ensures MessageContent(m) == []
    ensures MessageType(m) == if m.None? then [] else m.value
  {
  }

  // ---------------------------------------------------------------------
  // Decimal numbers
  // ---------------------------------------------------------------------

  predicate IsDigit(c: char) {
    '0' <= c <= '9'
  }

  predicate AllDigits(s: string) {
    forall i :: 0 <= i < |s| ==> IsDigit(s[i])
  }

  function DigitChar(d: nat): (c: char)
    requires d < 10
    ensures IsDigit(c) && DigitValue(c) == d
  {
    ('0' as int + d) as char
  }

  function DigitValue(c: char): (d: nat)
    requires IsDigit(c)
    ensures d < 10
  {
    c as int - '0' as int
  }

  /** The decimal digits of `n`, most significant first, without leading zeros. */
  function NatToString(n: nat): (s: string)
    ensures |s| >= 1 && AllDigits(s)
    decreases n
  {
    if n < 10 then [DigitChar(n)] else NatToString(n / 10) + [DigitChar(n % 10)]
  }

  /** Java's `String.valueOf(int)`: a minus sign for negative numbers, then the digits. */
  function IntToString(n: int): (s: string)
    ensures |s| >= 1 && FieldSeparator !in s && Separator !in s
  {
    if n < 0 then "-" + NatToString(-n) else NatToString(n)
  }

  /** The number a string of digits denotes. */
  function DigitsValue(s: string): nat
    requires AllDigits(s)
  {
    if s == [] then 0 else DigitsValue(s[..|s| - 1]) * 10 + DigitValue(s[|s| - 1])
  }

  /**
   * `Integer.parseInt(s)` for ASCII input: an optional `-` or `+`, at least
   * one digit, and a value in the `int` range; anything else raises
   * `NumberFormatException`, which is `None` here.
   */
  function ParseInt(s: string): (r: Option<Int32>)
    ensures r.Some? ==> |s| >= 1 && AllDigits(s[1..]) && (IsDigit(s[0]) || s[0] == '-' || s[0] == '+')
    ensures r.Some? && |s| >= 2 && s[0] == '-' ==> r.value <= 0
  {
    if s == [] then None
    else
      var digits := if s[0] == '-' || s[0] == '+' then s[1..] else s;
      if digits == [] || !AllDigits(digits) then None
      else
        var v: int := if s[0] == '-' then -(DigitsValue(digits) as int) else DigitsValue(digits);
        if MinInt <= v <= MaxInt then Some(v) else None
  }

  lemma {:induction false} DigitsOfNat(n: nat)
    ensures DigitsValue(NatToString(n)) == n
    decreases n
  {
    if n >= 10 {
      DigitsOfNat(n / 10);
      var s := NatToString(n);
      assert s[..|s| - 1] == NatToString(n / 10);
    }
  }

  /** `Integer.parseInt(String.valueOf(x)) == x` for every `int`. */
  lemma ParseIntToString(x: Int32)
    ensures ParseInt(IntToString(x)) == Some(x)
  {
    if x < 0 {
      ParseNegative(-(x as int));
    } else {
      DigitsOfNat(x);
      ParseDigits(NatToString(x));
    }
  }

  /** A string of digits not starting with a sign parses to its value, when that is in range. */
  lemma ParseDigits(s: string)
    requires |s| >= 1 && AllDigits(s) && DigitsValue(s) <= MaxInt
    ensures ParseInt(s) == Some(DigitsValue(s))
  {
    assert s[0] != '-' && s[0] != '+';
  }

  /** The text of `-n` parses back to `-n`. */
  lemma ParseNegative(n: nat)
    requires 0 < n <= -MinInt
    ensures ParseInt("-" + NatToString(n)) == Some(-(n as int))
  {
    var s := "-" + NatToString(n);
    DigitsOfNat(n);
    assert s[1..] == NatToString(n);
  }

  // ---------------------------------------------------------------------
  // Splitting at commas
  // ---------------------------------------------------------------------

  /** The comma-separated fields of `s`, empty ones included. */
  function Fields(s: string): (fs: seq<string>)
    ensures |fs| >= 1 && forall i :: 0 <= i < |fs| ==> FieldSeparator !in fs[i]
    ensures JoinFields(fs) == s
    decreases |s|
  {
    match IndexOf(s, FieldSeparator)
    case None => [s]
    case Some(i) =>
      var rest := Fields(s[i + 1..]);
      assert ([s[..i]] + rest)[1..] == rest;
      assert s == s[..i] + [FieldSeparator] + s[i + 1..];
      [s[..i]] + rest
  }

  /** The fields written back with commas between them. */
  function JoinFields(fs: seq<string>): string
    requires |fs| >= 1
  {
    if |fs| == 1 then fs[0] else fs[0] + [FieldSeparator] + JoinFields(fs[1..])
  }

  /** Splitting what was joined gives back the fields, provided none holds a comma. */
  lemma {:induction false} FieldsOfJoin(fs: seq<string>)
    requires |fs| >= 1 && forall i :: 0 <= i < |fs| ==> FieldSeparator !in fs[i]
    ensures Fields(JoinFields(fs)) == fs
  {
    if |fs| > 1 {
      var rest := JoinFields(fs[1..]);
      IndexAfterPrefix(fs[0], FieldSeparator, rest);
      var s := fs[0] + [FieldSeparator] + rest;
      assert s[..|fs[0]|] == fs[0];
      assert s[|fs[0]| + 1..] == rest;
      FieldsOfJoin(fs[1..]);
    }
  }

  /** The list without its trailing empty fields. */
  function DropTrailingEmpty(fs: seq<string>): (r: seq<string>)
    ensures r <= fs && (r == [] || r[|r| - 1] != [])
    ensures forall i :: |r| <= i < |fs| ==> fs[i] == []
  {
    if |fs| > 0 && fs[|fs| - 1] == [] then DropTrailingEmpty(fs[..|fs| - 1]) else fs
  }

  /**
   * Java's `s.split(",")`: when there is no comma, `[s]` (even for `""`);
   * otherwise the fields with the trailing empty ones removed.
   */
  function Split(s: string): (r: seq<string>)
    ensures forall i :: 0 <= i < |r| ==> FieldSeparator !in r[i]
    ensures FieldSeparator !in s ==> r == [s]
    ensures FieldSeparator in s ==> r == [] || r[|r| - 1] != []
  {
    if FieldSeparator !in s then [s] else DropTrailingEmpty(Fields(s))
  }

  /**
   * `parseMove`: four `int`s when the split yields exactly four fields and
   * each parses, and the empty array otherwise.
   */
  function ParseMove(data: string): (r: seq<Int32>)
    ensures r == [] || |r| == 4
    ensures |r| == 4 <==> |Split(data)| == 4 && forall i :: 0 <= i < 4 ==> ParseInt(Split(data)[i]).Some?
    ensures |r| == 4 ==> forall i :: 0 <= i < 4 ==> Some(r[i]) == ParseInt(Split(data)[i])
  {
    var parts := Split(data);
    if |parts| != 4 then []
    else
      match (ParseInt(parts[0]), ParseInt(parts[1]), ParseInt(parts[2]), ParseInt(parts[3]))
      case (Some(a), Some(b), Some(c), Some(d)) => [a, b, c, d]
      case _ => []
  }

  lemma JoinStep(f: string, rest: seq<string>)
    requires |rest| >= 1
    ensures JoinFields([f] + rest) == f + [FieldSeparator] + JoinFields(rest)
  {
    assert ([f] + rest)[1..] == rest;
  }

  /** Four fields joined by commas. */
  lemma JoinFour(a: string, b: string, c: string, d: string)
    ensures JoinFields([a, b, c, d]) == a + [FieldSeparator] + b + [FieldSeparator] + c + [FieldSeparator] + d
  {
    JoinStep(c, [d]);
    assert [b, c, d] == [b] + [c, d];
    JoinStep(b, [c, d]);
    assert [a, b, c, d] == [a] + [b, c, d];
    JoinStep(a, [b, c, d]);
  }

  /** Splitting two or more comma-free fields, the last non-empty, after joining them gives them back. */
  lemma SplitOfJoin(fs: seq<string>)
    requires |fs| >= 2 && fs[|fs| - 1] != []
    requires forall i :: 0 <= i < |fs| ==> FieldSeparator !in fs[i]
    ensures Split(JoinFields(fs)) == fs
  {
    FieldsOfJoin(fs);
    var s := JoinFields(fs);
    JoinStep(fs[0], fs[1..]);
    assert [fs[0]] + fs[1..] == fs;
    assert s[|fs[0]|] == FieldSeparator;
  }

  /** The payload of four numbers splits into their four decimal strings and parses back. */
  lemma PayloadRoundTrip(r1: Int32, c1: Int32, r2: Int32, c2: Int32)
    ensures ParseMove(MovePayload(r1, c1, r2, c2)) == [r1, c1, r2, c2]
  {
    var fs := [IntToString(r1), IntToString(c1), IntToString(r2), IntToString(c2)];
    JoinFour(fs[0], fs[1], fs[2], fs[3]);
    SplitOfJoin(fs);
    ParseIntToString(r1);
    ParseIntToString(c1);
    ParseIntToString(r2);
    ParseIntToString(c2);
  }

  /** A last empty field after a non-empty one is dropped by the split. */
  lemma SplitDropsTrailingEmpty(fs: seq<string>)
    requires |fs| >= 2 && fs[|fs| - 1] == [] && fs[|fs| - 2] != []
    requires forall i :: 0 <= i < |fs| ==> FieldSeparator !in fs[i]
    ensures Split(JoinFields(fs)) == fs[..|fs| - 1]
  {
    FieldsOfJoin(fs);
    var s := JoinFields(fs);
    JoinStep(fs[0], fs[1..]);
    assert [fs[0]] + fs[1..] == fs;
    assert s[|fs[0]|] == FieldSeparator;
    assert DropTrailingEmpty(fs) == DropTrailingEmpty(fs[..|fs| - 1]);
  }

  /** A move payload with a trailing comma is five fields, the last one empty. */
  lemma TrailingCommaFields(a: string, b: string, c: string, d: string)
    ensures JoinFields([a, b, c, d, []]) == a + [FieldSeparator] + b + [FieldSeparator] + c + [FieldSeparator] + d + [FieldSeparator]
  {
    JoinFour(b, c, d, []);
    JoinStep(a, [b, c, d, []]);
    assert [a] + [b, c, d, []] == [a, b, c, d, []];
  }

  /** A trailing comma is dropped by the split, so the move still parses. */
  lemma TrailingCommaParses(r1: Int32, c1: Int32, r2: Int32, c2: Int32)
    ensures ParseMove(MovePayload(r1, c1, r2, c2) + [FieldSeparator]) == [r1, c1, r2, c2]
  {
    var fs := [IntToString(r1), IntToString(c1), IntToString(r2), IntToString(c2), []];
    TrailingCommaFields(fs[0], fs[1], fs[2], fs[3]);
    SplitDropsTrailingEmpty(fs);
    ParseIntToString(r1);
    ParseIntToString(c1);
    ParseIntToString(r2);
    ParseIntToString(c2);
    ParseFour(MovePayload(r1, c1, r2, c2) + [FieldSeparator], fs[..4], [r1, c1, r2, c2]);
  }

  /** Four fields that each parse give the four numbers. */
  lemma ParseFour(data: string, fs: seq<string>, vs: seq<Int32>)
    requires Split(data) == fs && |fs| == 4 && |vs| == 4
    requires forall i :: 0 <= i < 4 ==> ParseInt(fs[i]) == Some(vs[i])
    ensures ParseMove(data) == vs
  {
    assert ParseInt(fs[0]) == Some(vs[0]) && ParseInt(fs[1]) == Some(vs[1]);
    assert ParseInt(fs[2]) == Some(vs[2]) && ParseInt(fs[3]) == Some(vs[3]);
  }
}

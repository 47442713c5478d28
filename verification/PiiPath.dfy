/** internal/pii/pii_fieldpath_walker.go: the text that names a leaf of a JSON document. */
module PiiPath {
  import opened Decimal

  datatype Step = Key(name: string) | Index(i: nat)

  predicate Structural(c: char) {
    c == '\\' || c == '.' || c == '[' || c == ']'
  }

  function EscapeChar(c: char): string {
    if Structural(c) then ['\\', c] else [c]
  }

  function Escape(key: string): string {
    if key == "" then "" else EscapeChar(key[0]) + Escape(key[1..])
  }

  /** jsonChildPath. */
  function ChildPath(prefix: string, key: string): string {
    if prefix == "" then Escape(key) else prefix + "." + Escape(key)
  }

  function IndexPath(prefix: string, i: nat): string {
    prefix + "[" + Digits(i) + "]"
  }

  function StepPath(prefix: string, step: Step): string {
    match step
    case Key(name) => ChildPath(prefix, name)
    case Index(i) => IndexPath(prefix, i)
  }

  /** The path text of a leaf reached by these steps from a node with that path. */
  function PathFrom(prefix: string, steps: seq<Step>): string
    decreases steps
  {
    if steps == [] then prefix else PathFrom(StepPath(prefix, steps[0]), steps[1..])
  }

  /** Empty keys met while the path is still empty leave no trace. */
  function Visible(steps: seq<Step>): seq<Step> {
    if steps != [] && steps[0] == Key("") then Visible(steps[1..]) else steps
  }

  // ---------------------------------------------------------------------------------------------------------
  // Decoder
  // ---------------------------------------------------------------------------------------------------------

  /** Reads a key up to the next unescaped dot or bracket. */
  function ReadKey(text: string): (r: (string, string))
    ensures |r.1| <= |text|
  {
    if text == "" || text[0] == '.' || text[0] == '[' then ("", text)
    else if text[0] == '\\' && |text| >= 2 then
      var (key, rest) := ReadKey(text[2..]);
      ([text[1]] + key, rest)
    else
      var (key, rest) := ReadKey(text[1..]);
      ([text[0]] + key, rest)
  }

  function ReadDigits(text: string): (r: (string, string))
    ensures AllDigits(r.0) && |r.1| <= |text|
  {
    if text == "" || !IsDigit(text[0]) then ("", text)
    else
      var (digits, rest) := ReadDigits(text[1..]);
      ([text[0]] + digits, rest)
  }

  /** Reads steps, each introduced by a dot or a bracket. */
  function ReadSteps(text: string): seq<Step>
    decreases |text|
  {
    if text == "" then []
    else if text[0] == '[' then
      var (digits, rest) := ReadDigits(text[1..]);
      [Index(Value(digits))] + (if rest == "" then [] else ReadSteps(rest[1..]))
    else
      var (key, rest) := ReadKey(text[1..]);
      [Key(key)] + ReadSteps(rest)
  }

  function Decode(text: string): seq<Step> {
    if text == "" || text[0] == '[' then ReadSteps(text)
    else
      var (key, rest) := ReadKey(text);
      [Key(key)] + ReadSteps(rest)
  }

  // ---------------------------------------------------------------------------------------------------------
  // Round trip
  // ---------------------------------------------------------------------------------------------------------

  /** What a step after the first adds to the path. */
  function StepText(step: Step): string {
    match step
    case Key(name) => "." + Escape(name)
    case Index(i) => "[" + Digits(i) + "]"
  }

  function Tail(steps: seq<Step>): string {
    if steps == [] then "" else StepText(steps[0]) + Tail(steps[1..])
  }

  lemma StepAppends(prefix: string, step: Step)
    requires prefix != ""
    ensures StepPath(prefix, step) == prefix + StepText(step)
  {
    match step
    case Key(name) => assert prefix + "." + Escape(name) == prefix + ("." + Escape(name));
    case Index(i) => assert prefix + "[" + Digits(i) + "]" == prefix + ("[" + Digits(i) + "]");
  }

  lemma Associate(a: string, b: string, c: string)
    ensures (a + b) + c == a + (b + c)
  {
  }

  lemma {:induction false} PathIsPrefixAndTail(prefix: string, steps: seq<Step>)
    requires prefix != ""
    ensures PathFrom(prefix, steps) == prefix + Tail(steps)
    decreases steps
  {
    if steps == [] {
      assert prefix + "" == prefix;
    } else {
      StepAppends(prefix, steps[0]);
      PathIsPrefixAndTail(StepPath(prefix, steps[0]), steps[1..]);
      Associate(prefix, StepText(steps[0]), Tail(steps[1..]));
    }
  }

  /** Where a key's text ends. */
  predicate Ends(rest: string) {
    rest == "" || rest[0] == '.' || rest[0] == '['
  }

  lemma ReadChar(c: char, body: string)
    ensures ReadKey(EscapeChar(c) + body) == ([c] + ReadKey(body).0, ReadKey(body).1)
  {
    var text := EscapeChar(c) + body;
    if Structural(c) {
      assert text[0] == '\\' && text[1] == c && text[2..] == body;
    } else {
      assert text[0] == c && text[1..] == body;
    }
  }

  lemma {:induction false} KeyRoundTrip(key: string, rest: string)
    requires Ends(rest)
    ensures ReadKey(Escape(key) + rest) == (key, rest)
  {
    if key == "" {
      assert Escape(key) + rest == rest;
    } else {
      KeyRoundTrip(key[1..], rest);
      ReadChar(key[0], Escape(key[1..]) + rest);
      Associate(EscapeChar(key[0]), Escape(key[1..]), rest);
      assert key == [key[0]] + key[1..];
    }
  }

  lemma {:induction false} DigitsRoundTrip(digits: string, rest: string)
    requires AllDigits(digits) && (rest == "" || !IsDigit(rest[0]))
    ensures ReadDigits(digits + rest) == (digits, rest)
  {
    if digits == "" {
      assert digits + rest == rest;
    } else {
      DigitsRoundTrip(digits[1..], rest);
      assert (digits + rest)[0] == digits[0] && (digits + rest)[1..] == digits[1..] + rest;
      assert digits == [digits[0]] + digits[1..];
    }
  }

  lemma TailEnds(steps: seq<Step>)
    ensures Ends(Tail(steps))
  {
    if steps != [] {
      assert StepText(steps[0])[0] == Tail(steps)[0];
    }
  }

  lemma {:induction false} TailRoundTrip(steps: seq<Step>)
    ensures ReadSteps(Tail(steps)) == steps
  {
    if steps != [] {
      var rest := steps[1..];
      TailRoundTrip(rest);
      TailEnds(rest);
      assert steps == [steps[0]] + rest;
      match steps[0]
      case Key(name) => KeyStep(name, Tail(rest));
      case Index(i) => IndexStep(i, Tail(rest));
    }
  }

  lemma ReadDot(body: string)
    ensures ReadSteps("." + body) == [Key(ReadKey(body).0)] + ReadSteps(ReadKey(body).1)
  {
    var text := "." + body;
    assert text[0] == '.' && text[1..] == body;
  }

  lemma KeyStep(name: string, rest: string)
    requires Ends(rest)
    ensures ReadSteps(StepText(Key(name)) + rest) == [Key(name)] + ReadSteps(rest)
  {
    Associate(".", Escape(name), rest);
    KeyRoundTrip(name, rest);
    ReadDot(Escape(name) + rest);
  }

  lemma ReadBracket(body: string)
    ensures var (digits, rest) := ReadDigits(body);
            ReadSteps("[" + body) == [Index(Value(digits))] + (if rest == "" then [] else ReadSteps(rest[1..]))
  {
    var text := "[" + body;
    assert text[0] == '[' && text[1..] == body;
  }

  lemma IndexStep(i: nat, rest: string)
    ensures ReadSteps(StepText(Index(i)) + rest) == [Index(i)] + ReadSteps(rest)
  {
    var closed := "]" + rest;
    assert StepText(Index(i)) + rest == "[" + (Digits(i) + closed);
    assert closed[0] == ']' && closed[1..] == rest;
    DigitsRoundTrip(Digits(i), closed);
    ValueOfDigits(i);
    ReadBracket(Digits(i) + closed);
  }

  /** The decoder undoes the path text, except for empty keys met while the path was still empty. */
  lemma {:induction false} PathRoundTrip(steps: seq<Step>)
    ensures Decode(PathFrom("", steps)) == Visible(steps)
  {
    if steps != [] {
      var rest := steps[1..];
      assert steps == [steps[0]] + rest;
      match steps[0]
      case Key(name) =>
        if name == "" {
          PathRoundTrip(rest);
        } else {
          FirstKey(name, rest);
        }
      case Index(i) => FirstIndex(i, rest);
    }
  }

  lemma EscapeStarts(name: string)
    requires name != ""
    ensures Escape(name) != "" && Escape(name)[0] != '[' && Escape(name)[0] != '.'
  {
  }

  lemma FirstKey(name: string, rest: seq<Step>)
    requires name != ""
    ensures Decode(PathFrom(Escape(name), rest)) == [Key(name)] + rest
  {
    EscapeStarts(name);
    PathIsPrefixAndTail(Escape(name), rest);
    TailEnds(rest);
    KeyRoundTrip(name, Tail(rest));
    TailRoundTrip(rest);
    assert (Escape(name) + Tail(rest))[0] == Escape(name)[0];
  }

  lemma FirstIndex(i: nat, rest: seq<Step>)
    ensures Decode(PathFrom(IndexPath("", i), rest)) == [Index(i)] + rest
  {
    var first := IndexPath("", i);
    assert first == StepText(Index(i));
    PathIsPrefixAndTail(first, rest);
    IndexStep(i, Tail(rest));
    TailRoundTrip(rest);
    assert (first + Tail(rest))[0] == '[';
  }

  lemma {:induction false} VisiblePath(steps: seq<Step>)
    ensures PathFrom("", Visible(steps)) == PathFrom("", steps)
  {
    if steps != [] && steps[0] == Key("") {
      VisiblePath(steps[1..]);
    }
  }

  /** Two leaves have the same path text exactly when they differ only in empty keys at the very start. */
  lemma PathsEqualExactly(a: seq<Step>, b: seq<Step>)
    ensures PathFrom("", a) == PathFrom("", b) <==> Visible(a) == Visible(b)
  {
    PathRoundTrip(a);
    PathRoundTrip(b);
    VisiblePath(a);
    VisiblePath(b);
  }

  /** Such leaves exist: {"": {"a": x}, "a": y} gives both its strings the path "a". */
  lemma EmptyKeyCollides()
    ensures PathFrom("", [Key(""), Key("a")]) == PathFrom("", [Key("a")]) && [Key(""), Key("a")] != [Key("a")]
  {
    PathsEqualExactly([Key(""), Key("a")], [Key("a")]);
    assert [Key(""), Key("a")][1..] == [Key("a")];
    assert |[Key(""), Key("a")]| == 2 && |[Key("a")]| == 1;
  }

  // ---------------------------------------------------------------------------------------------------------
  // How paths look
  // ---------------------------------------------------------------------------------------------------------

  lemma {:induction false} PlainKey(key: string)
    requires forall c :: c in key ==> c != '\\' && c != '.' && c != '[' && c != ']'
    ensures Escape(key) == key
  {
    if key != "" {
      assert key == [key[0]] + key[1..] && key[0] in key;
      assert forall c :: c in key[1..] ==> c in key;
      PlainKey(key[1..]);
    }
  }

  /** A key without dots, brackets and backslashes stands as it is, after a dot unless it is the first; a position stands in
      brackets. */
  lemma PlainPath(prefix: string, key: string, i: nat)
    requires forall c :: c in key ==> c != '\\' && c != '.' && c != '[' && c != ']'
    ensures StepPath("", Key(key)) == key
    ensures prefix != "" ==> StepPath(prefix, Key(key)) == prefix + "." + key
    ensures StepPath(prefix, Index(i)) == prefix + "[" + Print(i) + "]"
  {
    PlainKey(key);
  }

  /** In any other key each such character is preceded by a backslash. */
  lemma EscapedKey(head: string, c: char, tail: string)
    ensures Escape(head + [c] + tail) ==
            Escape(head) + (if c == '\\' || c == '.' || c == '[' || c == ']' then ['\\', c] else [c]) + Escape(tail)
    decreases head
  {
    var key := head + [c] + tail;
    if head == "" {
      assert key == [c] + tail && key[1..] == tail;
    } else {
      assert key[0] == head[0] && key[1..] == head[1..] + [c] + tail;
      EscapedKey(head[1..], c, tail);
      Regroup(EscapeChar(head[0]), Escape(head[1..]), EscapeChar(c), Escape(tail));
    }
  }

  lemma Regroup(a: string, b: string, c: string, d: string)
    ensures a + (b + c + d) == (a + b) + c + d
  {
  }
}

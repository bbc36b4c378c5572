/** Metric labels: status code names turned into snake case. */
module Labels {
  import opened Types

  predicate IsUpper(c: char) { 'A' <= c <= 'Z' }

  predicate IsLower(c: char) { 'a' <= c <= 'z' }

  function ToLower(c: char): char {
    if IsUpper(c) then (c as int + 32) as char else c
  }

  function ToUpper(c: char): char {
    if IsLower(c) then (c as int - 32) as char else c
  }

  /** Lower-cased, with an underscore before every capital but an initial one. */
  function Snake(s: string): string {
    if s == "" then ""
    else
      var n := |s| - 1;
      Snake(s[..n]) + (if IsUpper(s[n]) && n != 0 then "_" else "") + [ToLower(s[n])]
  }

  method PascalToSnake(s: string) returns (out: string)
    ensures out == Snake(s)
  {
    out := "";
    for i := 0 to |s|
      invariant out == Snake(s[..i])
    {
      assert s[..i + 1][..i] == s[..i];
      if IsUpper(s[i]) && i != 0 {
        out := out + "_";
      }
      out := out + [ToLower(s[i])];
    }
    assert s[..|s|] == s;
  }

  /** ASCII letters, the first of them a capital. */
  predicate IsPascal(s: string) {
    && (forall i :: 0 <= i < |s| ==> IsUpper(s[i]) || IsLower(s[i]))
    && (s != "" ==> IsUpper(s[0]))
  }

  /** Reads snake case back: a capital at the start and after every underscore. */
  function Pascal(t: string): string {
    if t == "" then ""
    else if |t| == 1 then [ToUpper(t[0])]
    else
      var n := |t| - 1;
      if t[n - 1] == '_' then Pascal(t[..n - 1]) + [ToUpper(t[n])] else Pascal(t[..n]) + [t[n]]
  }

  lemma PascalOfCapital(t: string, c: char)
    requires t != ""
    ensures Pascal(t + ['_', c]) == Pascal(t) + [ToUpper(c)]
  {
    var u := t + ['_', c];
    assert u[..|t|] == t && u[|t|] == '_' && u[|t| + 1] == c;
  }

  lemma PascalOfOther(t: string, c: char)
    requires t != "" && t[|t| - 1] != '_'
    ensures Pascal(t + [c]) == Pascal(t) + [c]
  {
    var u := t + [c];
    assert u[..|t|] == t && u[|t|] == c && u[|t| - 1] == t[|t| - 1];
  }

  lemma SnakeOfMore(s: string, c: char)
    ensures Snake(s + [c]) == Snake(s) + (if IsUpper(c) && s != "" then "_" else "") + [ToLower(c)]
  {
    assert (s + [c])[..|s|] == s;
  }

  predicate Inverted(s: string) {
    Pascal(Snake(s)) == s && (s != "" ==> Snake(s) != "" && Snake(s)[|Snake(s)| - 1] != '_')
  }

  lemma PascalOfSnakeOfMore(s: string, c: char)
    requires IsUpper(c) || (IsLower(c) && s != "")
    requires Inverted(s)
    ensures Inverted(s + [c])
  {
    SnakeOfMore(s, c);
    if s == "" {
      assert Snake(s + [c]) == [ToLower(c)];
    } else if IsUpper(c) {
      assert Snake(s + [c]) == Snake(s) + ['_', ToLower(c)];
      PascalOfCapital(Snake(s), ToLower(c));
    } else {
      assert Snake(s + [c]) == Snake(s) + [c];
      PascalOfOther(Snake(s), c);
    }
  }

  lemma {:induction false} PascalInvertsSnake(s: string)
    requires IsPascal(s)
    ensures Pascal(Snake(s)) == s
  {
    InvertedByPascal(s);
  }

  lemma {:induction false} InvertedByPascal(s: string)
    requires IsPascal(s)
    ensures Inverted(s)
  {
    if s != "" {
      var t, c := s[..|s| - 1], s[|s| - 1];
      InvertedByPascal(t);
      PascalOfSnakeOfMore(t, c);
      assert t + [c] == s;
    }
  }

  lemma SnakeInjective(s: string, t: string)
    requires IsPascal(s) && IsPascal(t) && Snake(s) == Snake(t)
    ensures s == t
  {
    PascalInvertsSnake(s);
    PascalInvertsSnake(t);
  }

  function CapitalsAfterFirst(s: string): nat {
    if |s| <= 1 then 0
    else CapitalsAfterFirst(s[..|s| - 1]) + if IsUpper(s[|s| - 1]) then 1 else 0
  }

  lemma {:induction false} SnakeLength(s: string)
    ensures |Snake(s)| == |s| + CapitalsAfterFirst(s)
  {
    if s != "" {
      SnakeLength(s[..|s| - 1]);
    }
  }

  /** No capital is left in a label. */
  lemma {:induction false} SnakeHasNoCapitals(s: string)
    ensures forall i :: 0 <= i < |Snake(s)| ==> !('A' <= Snake(s)[i] <= 'Z')
  {
    if s != "" {
      SnakeHasNoCapitals(s[..|s| - 1]);
    }
  }

  /** The initial capital matters: without it two names can share a label. */
  lemma InitialCaseIsLost(s: string)
    requires s != "" && IsUpper(s[0])
    ensures var t := [ToLower(s[0])] + s[1..];
            t != s && Snake(t) == Snake(s)
  {
    var t := [ToLower(s[0])] + s[1..];
    assert t[0] != s[0];
    SnakeAfterFirst(s, t);
  }

  lemma {:induction false} SnakeAfterFirst(s: string, t: string)
    requires |s| == |t| > 0 && s[1..] == t[1..] && ToLower(s[0]) == ToLower(t[0])
    ensures Snake(s) == Snake(t)
  {
    var n := |s| - 1;
    if n == 0 {
      assert s[..0] == t[..0] == "";
    } else {
      assert s[n] == s[1..][n - 1] == t[1..][n - 1] == t[n];
      assert s[..n][1..] == s[1..][..n - 1] == t[1..][..n - 1] == t[..n][1..];
      SnakeAfterFirst(s[..n], t[..n]);
    }
  }

  // The labels themselves.

  function CodeName(c: Code): string {
    match c
    case Success => "Ok"
    case Cancelled => "Cancelled"
    case Unknown => "Unknown"
    case InvalidArgument => "InvalidArgument"
    case DeadlineExceeded => "DeadlineExceeded"
    case NotFound => "NotFound"
    case AlreadyExists => "AlreadyExists"
    case PermissionDenied => "PermissionDenied"
    case ResourceExhausted => "ResourceExhausted"
    case FailedPrecondition => "FailedPrecondition"
    case Aborted => "Aborted"
    case OutOfRange => "OutOfRange"
    case Unimplemented => "Unimplemented"
    case Internal => "Internal"
    case Unavailable => "Unavailable"
    case DataLoss => "DataLoss"
    case Unauthenticated => "Unauthenticated"
  }

  function CodeLabel(c: Code): string {
    Snake(CodeName(c))
  }

  /** The code a name belongs to, told by its length and first letter. */
  function CodeNamed(name: string): Code
    requires name != ""
  {
    if |name| == 2 then Success
    else if |name| == 7 then if name[0] == 'U' then Unknown else Aborted
    else if |name| == 8 then if name[0] == 'N' then NotFound else if name[0] == 'I' then Internal else DataLoss
    else if |name| == 9 then Cancelled
    else if |name| == 10 then OutOfRange
    else if |name| == 11 then Unavailable
    else if |name| == 13 then if name[0] == 'A' then AlreadyExists else Unimplemented
    else if |name| == 15 then if name[0] == 'I' then InvalidArgument else Unauthenticated
    else if |name| == 16 then if name[0] == 'D' then DeadlineExceeded else PermissionDenied
    else if |name| == 17 then ResourceExhausted
    else FailedPrecondition
  }

  lemma CodeNameInjective(c: Code, d: Code)
    requires CodeName(c) == CodeName(d)
    ensures c == d
  {
    CodeNamedByName(c);
    CodeNamedByName(d);
  }

  lemma CodeNamedByName(c: Code)
    ensures CodeName(c) != "" && CodeNamed(CodeName(c)) == c
  {
  }

  lemma ShortNameIsPascal(c: Code)
    requires |CodeName(c)| <= 13
    ensures IsPascal(CodeName(c))
  {
  }

  lemma MediumNameIsPascal(c: Code)
    requires 13 < |CodeName(c)| <= 15
    ensures IsPascal(CodeName(c))
  {
  }

  lemma LongNameIsPascal(c: Code)
    requires 15 < |CodeName(c)|
    ensures IsPascal(CodeName(c))
  {
  }

  lemma CodeNameIsPascal(c: Code)
    ensures IsPascal(CodeName(c))
  {
    if |CodeName(c)| <= 13 {
      ShortNameIsPascal(c);
    } else if |CodeName(c)| <= 15 {
      MediumNameIsPascal(c);
    } else {
      LongNameIsPascal(c);
    }
  }

  /** A capital followed by small letters. */
  predicate IsWord(word: string) {
    && word != "" && IsUpper(word[0])
    && forall i :: 1 <= i < |word| ==> IsLower(word[i])
  }

  function Lowered(word: string): string {
    seq(|word|, i requires 0 <= i < |word| => ToLower(word[i]))
  }

  /** One more word is one more label part. */
  lemma {:induction false} SnakeOfWord(s: string, word: string)
    requires IsWord(word)
    ensures Snake(s + word) == Snake(s) + (if s == "" then "" else "_") + Lowered(word)
  {
    var n := |word| - 1;
    SnakeOfMore(s + word[..n], word[n]);
    assert s + word[..n] + [word[n]] == s + word;
    if n == 0 {
      assert s + word[..0] == s;
      assert Lowered(word) == [ToLower(word[0])];
    } else {
      SnakeOfWord(s, word[..n]);
      assert Lowered(word) == Lowered(word[..n]) + [ToLower(word[n])];
    }
  }

  lemma OneWordLabel(word: string)
    requires IsWord(word)
    ensures Snake(word) == Lowered(word)
  {
    SnakeOfWord("", word);
    assert "" + word == word;
  }

  lemma TwoWordLabel(first: string, second: string)
    requires IsWord(first) && IsWord(second)
    ensures Snake(first + second) == Lowered(first) + "_" + Lowered(second)
  {
    OneWordLabel(first);
    SnakeOfWord(first, second);
  }

  /** The labels of the codes the service answers with. */
  lemma CodeLabelsSpelled()
    ensures CodeLabel(Success) == "ok"
    ensures CodeLabel(FailedPrecondition) == "failed_precondition"
    ensures CodeLabel(NotFound) == "not_found"
    ensures CodeLabel(InvalidArgument) == "invalid_argument"
    ensures CodeLabel(Internal) == "internal"
  {
    OneWordLabel("Ok");
    assert Lowered("Ok") == "ok";
    FailedPreconditionSpelled();
    NotFoundSpelled();
    InvalidArgumentSpelled();
    InternalSpelled();
  }

  lemma NotFoundSpelled()
    ensures CodeLabel(NotFound) == "not_found"
  {
    TwoWordLabel("Not", "Found");
    assert "Not" + "Found" == "NotFound";
    assert Lowered("Not") == "not" && Lowered("Found") == "found";
  }

  lemma InternalSpelled()
    ensures CodeLabel(Internal) == "internal"
  {
    OneWordLabel("Internal");
    assert Lowered("Internal") == "internal";
  }

  lemma FailedPreconditionSpelled()
    ensures CodeLabel(FailedPrecondition) == "failed_precondition"
  {
    TwoWordLabel("Failed", "Precondition");
    assert "Failed" + "Precondition" == "FailedPrecondition";
    assert Lowered("Failed") == "failed" && Lowered("Precondition") == "precondition";
  }

  lemma InvalidArgumentSpelled()
    ensures CodeLabel(InvalidArgument) == "invalid_argument"
  {
    TwoWordLabel("Invalid", "Argument");
    assert "Invalid" + "Argument" == "InvalidArgument";
    assert Lowered("Invalid") == "invalid" && Lowered("Argument") == "argument";
  }

  /** Distinct status codes are counted under distinct labels. */
  lemma CodeLabelInjective(c: Code, d: Code)
    requires CodeLabel(c) == CodeLabel(d)
    ensures c == d
  {
    CodeNameIsPascal(c);
    CodeNameIsPascal(d);
    SnakeInjective(CodeName(c), CodeName(d));
    CodeNameInjective(c, d);
  }

  datatype Method = LatestHeight | StateAttestation | PacketAttestation

  function MethodLabel(m: Method): string {
    match m
    case LatestHeight => "latest_height"
    case StateAttestation => "state_attestation"
    case PacketAttestation => "packet_attestation"
  }

  lemma MethodLabelInjective(m: Method, n: Method)
    ensures MethodLabel(m) == MethodLabel(n) <==> m == n
  {
    assert MethodLabel(LatestHeight)[0] == 'l';
    assert MethodLabel(StateAttestation)[0] == 's';
    assert MethodLabel(PacketAttestation)[0] == 'p';
  }

  function FailureLabel(k: FailureKind): string {
    match k
    case FailNotFound => "not_found"
    case FailMismatch => "mismatch"
    case FailUnexpectedReceipt => "unexpected_receipt"
  }

  lemma FailureLabelInjective(k: FailureKind, l: FailureKind)
    ensures FailureLabel(k) == FailureLabel(l) <==> k == l
  {
    assert FailureLabel(FailNotFound)[0] == 'n';
    assert FailureLabel(FailMismatch)[0] == 'm';
    assert FailureLabel(FailUnexpectedReceipt)[0] == 'u';
  }

  function SignLabel(ok: bool): string {
    if ok then "ok" else "err"
  }
}

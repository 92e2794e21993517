/** Arithmetic questions: how `_generateQuestions` builds them from random draws, and
    the closed evaluator that stands in for `eval(question)` in `_createAnswers`. */
module Questions {
  import opened Wrappers
  import opened Text
  import opened Draws

  /** The four operations, in the order of the source's `operations` array. */
  datatype Op = Plus | Minus | Divide | Times

  /** A question `left op right` with its two operands. */
  datatype Question = Question(left: nat, op: Op, right: nat)

  /** The random numbers one question consumes: `Math.random()` for the left operand,
      for the operation and for the right operand, in evaluation order. */
  datatype QuestionDraw = QuestionDraw(left: real, op: real, right: real)

  predicate ValidDraw(d: QuestionDraw) { IsDraw(d.left) && IsDraw(d.op) && IsDraw(d.right) }

  function OpChar(op: Op): char {
    match op
    case Plus => '+'
    case Minus => '-'
    case Divide => '/'
    case Times => '*'
  }

  /** Reads an operator character back; characters other than the four operators give None. */
  function CharOp(c: char): (r: Option<Op>)
    ensures r.Some? ==> OpChar(r.value) == c
    ensures forall op :: OpChar(op) == c ==> r == Some(op)
  {
    if c == '+' then Some(Plus)
    else if c == '-' then Some(Minus)
    else if c == '/' then Some(Divide)
    else if c == '*' then Some(Times)
    else None
  }

  /** `Math.ceil(x)`. */
  function Ceil(x: real): (n: int)
    ensures n as real - 1.0 < x <= n as real
  {
    -((-x).Floor)
  }

  /** `generateInt`: `Math.ceil(Math.random() * 10)`. A draw of exactly 0 gives the operand 0. */
  function RandomOperand(r: real): (n: nat)
    requires IsDraw(r)
    ensures (n as real) - 1.0 < r * 10.0 <= n as real
    ensures n <= 10
    ensures 0.0 < r <==> 1 <= n
  {
    Ceil(r * 10.0)
  }

  /** `getRandomOperation`: `operations[Math.floor(Math.random() * 4)]`; each operation
      owns one quarter of the unit interval. */
  function RandomOperation(r: real): (op: Op)
    requires IsDraw(r)
    ensures op == Plus <==> r < 0.25
    ensures op == Minus <==> 0.25 <= r < 0.5
    ensures op == Divide <==> 0.5 <= r < 0.75
    ensures op == Times <==> 0.75 <= r
  {
    var k := (r * 4.0).Floor;
    if k == 0 then Plus else if k == 1 then Minus else if k == 2 then Divide else Times
  }

  /** The question three draws produce, drawn in the order the source evaluates
      `generateInt() + getRandomOperation(operations) + generateInt()`. Its operands
      lie in 0..10, and it has no value exactly when `/` is drawn with a right
      operand draw of 0. */
  function DrawnQuestion(d: QuestionDraw): (q: Question)
    requires ValidDraw(d)
    ensures q.left <= 10 && q.right <= 10
    ensures Evaluate(q).None? <==> 0.5 <= d.op < 0.75 && d.right == 0.0
  {
    Question(RandomOperand(d.left), RandomOperation(d.op), RandomOperand(d.right))
  }

  /** The question as the source writes it: `"" + a + op + b + ""`, no spaces. */
  function QuestionText(q: Question): (s: string)
    ensures 3 <= |s| && ' ' !in s
    ensures |NatToString(q.left)| < |s| && s[|NatToString(q.left)|] == OpChar(q.op)
  {
    var a, b := NatToString(q.left), NatToString(q.right);
    assert forall i :: 0 <= i < |a| ==> a[i] != ' ';
    assert forall i :: 0 <= i < |b| ==> b[i] != ' ';
    a + [OpChar(q.op)] + b
  }

  /** Reads a question string `digits op digits`; anything else gives None. */
  function ParseQuestion(s: string): Option<Question> {
    ParseLeft(s, 0, 0)
  }

  /** Scans the left operand from position `i`, the digits before `i` being worth
      `left`; the first non-digit must be an operator followed by at least one more
      character. */
  function ParseLeft(s: string, i: nat, left: nat): Option<Question>
    decreases |s| - i
  {
    if i < |s| && IsDigit(s[i]) then ParseLeft(s, i + 1, 10 * left + DigitValue(s[i]))
    else if 0 < i && i + 1 < |s| && CharOp(s[i]).Some? then
      ParseRight(s, i + 1, left, CharOp(s[i]).value, 0)
    else None
  }

  /** Scans the right operand from position `j` to the end, the digits already read
      being worth `right`. */
  function ParseRight(s: string, j: nat, left: nat, op: Op, right: nat): Option<Question>
    decreases |s| - j
  {
    if |s| <= j then Some(Question(left, op, right))
    else if IsDigit(s[j]) then ParseRight(s, j + 1, left, op, 10 * right + DigitValue(s[j]))
    else None
  }

  /** Scanning a run of digits to its end accumulates the value of the whole run. */
  lemma {:induction false} ParseRightDigits(s: string, start: nat, j: nat, left: nat, op: Op, right: nat)
    requires start <= j <= |s| && AllDigits(s[start..]) && AllDigits(s[start..j])
    requires right == ParseNat(s[start..j])
    ensures ParseRight(s, j, left, op, right) == Some(Question(left, op, ParseNat(s[start..])))
    decreases |s| - j
  {
    if j < |s| {
      var t := s[start..j + 1];
      forall i | 0 <= i < |t|
        ensures IsDigit(t[i])
      {
        assert t[i] == s[start..][i];
      }
      assert t[..|t| - 1] == s[start..j] && t[|t| - 1] == s[j];
      assert ParseNat(t) == 10 * right + DigitValue(s[j]);
      ParseRightDigits(s, start, j + 1, left, op, 10 * right + DigitValue(s[j]));
    } else {
      assert s[start..j] == s[start..];
    }
  }

  /** Scanning the digits of the left operand up to the first non-digit at `k`
      accumulates the value of `s[..k]`. */
  lemma {:induction false} ParseLeftDigits(s: string, i: nat, k: nat)
    requires i <= k < |s| && AllDigits(s[..k]) && !IsDigit(s[k])
    ensures AllDigits(s[..i])
    ensures ParseLeft(s, i, ParseNat(s[..i])) == ParseLeft(s, k, ParseNat(s[..k]))
    decreases k - i
  {
    assert forall m :: 0 <= m < i ==> s[..i][m] == s[..k][m];
    if i < k {
      assert s[..k][i] == s[i];
      assert s[..i + 1][..i] == s[..i];
      ParseLeftDigits(s, i + 1, k);
    }
  }

  /** Scanning the decimal text of `n` as the right operand reads `n`. */
  lemma ParseRightText(s: string, start: nat, n: nat, left: nat, op: Op)
    requires start <= |s| && s[start..] == NatToString(n)
    ensures ParseRight(s, start, left, op, 0) == Some(Question(left, op, n))
  {
    assert s[start..start] == [];
    ParseRightDigits(s, start, start, left, op, 0);
    ParseNatToString(n);
  }

  /** Reading back a question that was written out gives the same question. */
  lemma QuestionRoundTrip(q: Question)
    ensures ParseQuestion(QuestionText(q)) == Some(q)
  {
    var a, b := NatToString(q.left), NatToString(q.right);
    var s := QuestionText(q);
    var k := |a|;
    assert s == a + [OpChar(q.op)] + b;
    assert s[..k] == a && s[k] == OpChar(q.op) && s[k + 1..] == b;
    assert s[..0] == [];
    ParseLeftDigits(s, 0, k);
    ParseNatToString(q.left);
    assert ParseQuestion(s) == ParseLeft(s, k, q.left);
    assert CharOp(s[k]) == Some(q.op);
    assert ParseLeft(s, k, q.left) == ParseRight(s, k + 1, q.left, q.op, 0);
    ParseRightText(s, k + 1, q.right, q.left, q.op);
  }

  /** The exact value of a question, as `eval` computes it for `+`, `-` and `*`;
      for `/` the exact quotient (JavaScript rounds it to a double). Division by
      zero has no finite value and gives None. */
  function Evaluate(q: Question): (r: Option<real>)
    ensures r.Some? <==> !(q.op == Divide && q.right == 0)
    ensures r.Some? && q.op != Divide ==> r.value == r.value.Floor as real
    ensures r.Some? && q.op == Divide ==> r.value * (q.right as real) == q.left as real
  {
    match q.op
    case Plus => Some((q.left + q.right) as real)
    case Minus => Some((q.left - q.right) as real)
    case Times => Some((q.left * q.right) as real)
    case Divide => if q.right == 0 then None else Some(q.left as real / q.right as real)
  }

  /** The evaluator for question strings: parse, then evaluate; never runs the text.
      The text of a question evaluates to the value of that question. */
  function EvaluateText(s: string): (r: Option<real>)
    ensures forall q :: s == QuestionText(q) ==> r == Evaluate(q)
  {
    assert forall q :: s == QuestionText(q) ==> ParseQuestion(s) == Some(q) by {
      forall q | s == QuestionText(q)
        ensures ParseQuestion(s) == Some(q)
      {
        QuestionRoundTrip(q);
      }
    }
    match ParseQuestion(s)
    case None => None
    case Some(q) => Evaluate(q)
  }

  /** `_generateQuestions`: one question string per draw, each `a op b` with operands
      in 0..10. */
  method GenerateQuestions(n: nat, draws: seq<QuestionDraw>) returns (questions: seq<string>)
    requires |draws| == n && forall i :: 0 <= i < n ==> ValidDraw(draws[i])
    ensures |questions| == n
    ensures forall i :: 0 <= i < n ==> ParseQuestion(questions[i]) == Some(DrawnQuestion(draws[i]))
    ensures forall i :: 0 <= i < n ==> EvaluateText(questions[i]) == Evaluate(DrawnQuestion(draws[i]))
    ensures forall i :: 0 <= i < n ==> ' ' !in questions[i]
  {
    questions := [];
    for i := 0 to n
      invariant |questions| == i
      invariant forall k :: 0 <= k < i ==> ParseQuestion(questions[k]) == Some(DrawnQuestion(draws[k]))
      invariant forall k :: 0 <= k < i ==> ' ' !in questions[k]
    {
      var q := DrawnQuestion(draws[i]);
      var text := QuestionText(q);
      QuestionRoundTrip(q);
      questions := questions + [text];
    }
  }
}

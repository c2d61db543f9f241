/** schema.go: the workflow tree (action, jobs, steps, requirements) and the
    display names derived from it.

    The structural hash (hashstructure.Hash) is not modelled: each String
    function takes the hash as an uninterpreted parameter, None meaning that
    hashing failed. */
module Schema {
  import opened Wrappers

  type Vars = map<string, string>

  /** The RunnableStep a step carries: an external command, a registered
      procedure, or some other implementation the converter cannot name. */
  datatype Runnable =
    | Command(argv: seq<string>)                 // CommandStep
    | Proc(uses: string, with: map<string, string>)  // ProcStep
    | Other(kind: string)                        // any other RunnableStep

  datatype Step = Step(id: string, name: string, variables: Vars, runnable: Runnable)

  /** RunOn is read by converter.go but is not a field of schema.go's Job. */
  datatype Job = Job(id: string, runOn: string, variables: Vars, steps: seq<Step>)

  /** Required is read by converter.go but is not a field of schema.go's Requirement. */
  datatype Requirement = Requirement(expr: string, description: Option<string>, required: bool)

  datatype Action = Action(id: string, variables: Vars, jobs: seq<Job>,
                           requirements: seq<Requirement>, metadata: Vars)

  // ---- fmt.Sprintf("%x", n): lowercase hexadecimal, no leading zeros ----

  const HexDigits := "0123456789abcdef"

  predicate IsHexDigit(c: char) {
    c in HexDigits
  }

  predicate AllHex(s: string) {
    forall i :: 0 <= i < |s| ==> IsHexDigit(s[i])
  }

  function DigitValue(c: char): (d: nat)
    requires IsHexDigit(c)
    ensures d < 16 && HexDigits[d] == c
  {
    if '0' <= c <= '9' then (c as int - '0' as int) as nat
    else (c as int - 'a' as int + 10) as nat
  }

  function Hex(n: nat): (r: string)
    ensures |r| >= 1 && AllHex(r)
    ensures r[0] == '0' ==> n == 0
    decreases n
  {
    if n < 16 then [HexDigits[n]] else Hex(n / 16) + [HexDigits[n % 16]]
  }

  function ParseHex(s: string): nat
    requires AllHex(s)
  {
    if |s| == 0 then 0 else ParseHex(s[..|s| - 1]) * 16 + DigitValue(s[|s| - 1])
  }

  /** Each digit character reads back as the digit it was written for. */
  lemma DigitValueOf(d: nat)
    requires d < 16
    ensures DigitValue(HexDigits[d]) == d
  {
    var c := HexDigits[d];
    if d < 10 {
      assert '0' <= c <= '9';
    } else {
      assert 'a' <= c <= 'f';
    }
  }

  /** The hex rendering of a hash reads back as the same number. */
  lemma {:induction false} HexRoundTrip(n: nat)
    ensures ParseHex(Hex(n)) == n
    decreases n
  {
    var r := Hex(n);
    if n < 16 {
      assert r[..0] == [];
      DigitValueOf(n);
    } else {
      var q, d := n / 16, n % 16;
      HexRoundTrip(q);
      DigitValueOf(d);
      assert r == Hex(q) + [HexDigits[d]];
      assert r[..|r| - 1] == Hex(q);
      assert r[|r| - 1] == HexDigits[d];
      assert ParseHex(r) == ParseHex(Hex(q)) * 16 + DigitValue(HexDigits[d]);
      assert q * 16 + d == n;
    }
  }

  /** The shared shape of Action/Job/Step.String. */
  function DisplayName(id: string, hash: Option<nat>, unknown: string): (r: string)
    ensures id != "" ==> r == id
    ensures id == "" && hash.Some? ==> AllHex(r) && ParseHex(r) == hash.value
    ensures id == "" && hash.None? ==> r == unknown
  {
    if id != "" then id
    else if hash.Some? then HexRoundTrip(hash.value); Hex(hash.value)
    else unknown
  }

  /** Action.String. */
  function ActionString(a: Action, hash: Action -> Option<nat>): (r: string)
    ensures a.id != "" ==> r == a.id
    ensures a.id == "" && hash(a).Some? ==> AllHex(r) && ParseHex(r) == hash(a).value
    ensures a.id == "" && hash(a).None? ==> r == "<unknown action>"
  {
    DisplayName(a.id, hash(a), "<unknown action>")
  }

  /** Job.String. */
  function JobString(j: Job, hash: Job -> Option<nat>): (r: string)
    ensures j.id != "" ==> r == j.id
    ensures j.id == "" && hash(j).Some? ==> AllHex(r) && ParseHex(r) == hash(j).value
    ensures j.id == "" && hash(j).None? ==> r == "<unknown job>"
  {
    DisplayName(j.id, hash(j), "<unknown job>")
  }

  /** Step.String. */
  function StepString(s: Step, hash: Step -> Option<nat>): (r: string)
    ensures s.id != "" ==> r == s.id
    ensures s.id == "" && hash(s).Some? ==> AllHex(r) && ParseHex(r) == hash(s).value
    ensures s.id == "" && hash(s).None? ==> r == "<unknown step>"
  {
    DisplayName(s.id, hash(s), "<unknown step>")
  }

  /** Step.HumanName: the name when there is one, else String. */
  function HumanName(s: Step, hash: Step -> Option<nat>): (r: string)
    ensures s.name != "" ==> r == s.name
    ensures s.name == "" ==> r == StepString(s, hash)
  {
    if s.name != "" then s.name else StepString(s, hash)
  }

  /** Requirement.String: the expression, then " (description)" when there is one. */
  function RequirementString(r: Requirement): (s: string)
    ensures r.description.None? ==> s == r.expr
    ensures r.description.Some? ==> s == r.expr + " (" + r.description.value + ")"
  {
    r.expr + if r.description.Some? then " (" + r.description.value + ")" else ""
  }

  /** Position of the first '(' in a string. */
  function FirstParen(s: string): (i: nat)
    ensures i <= |s|
    ensures forall k :: 0 <= k < i ==> s[k] != '('
    ensures i < |s| ==> s[i] == '('
  {
    if |s| == 0 || s[0] == '(' then 0 else 1 + FirstParen(s[1..])
  }

  lemma {:induction false} FirstParenAfter(e: string, rest: string)
    requires '(' !in e && |rest| > 0 && rest[0] == '('
    ensures FirstParen(e + rest) == |e|
    decreases |e|
  {
    if |e| > 0 {
      assert (e + rest)[1..] == e[1..] + rest;
      assert e[0] in e;
      FirstParenAfter(e[1..], rest);
    } else {
      assert e + rest == rest;
    }
  }

  /** When expressions hold no '(' the rendering loses nothing: equal renderings
      come from the same expression and the same description. */
  lemma RequirementStringInjective(r1: Requirement, r2: Requirement)
    requires '(' !in r1.expr && '(' !in r2.expr
    requires RequirementString(r1) == RequirementString(r2)
    ensures r1.expr == r2.expr && r1.description == r2.description
  {
    var s := RequirementString(r1);
    var e1, e2 := r1.expr + " ", r2.expr + " ";
    assert '(' !in e1 && '(' !in e2;
    if r1.description.Some? {
      FirstParenAfter(e1, "(" + r1.description.value + ")");
      assert s == e1 + ("(" + r1.description.value + ")");
    } else {
      assert FirstParen(s) == |s|;
    }
    if r2.description.Some? {
      FirstParenAfter(e2, "(" + r2.description.value + ")");
      assert s == e2 + ("(" + r2.description.value + ")");
    } else {
      assert FirstParen(s) == |s|;
    }
    if r1.description.Some? && r2.description.Some? {
      assert r1.expr == s[..|r1.expr|];
      assert r1.description.value == s[|e1| + 1..|s| - 1];
      assert r2.description.value == s[|e2| + 1..|s| - 1];
    }
  }
}

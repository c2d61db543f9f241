/** argument.go: lazily expanded step arguments. An argument keeps the text it
    was built from and is expanded (and, for typed arguments, converted) only
    when a step asks for its value with the step's expander. */
module Argument {

  /** ExpanderFn: in a running step this is StepContext.ExpandString. */
  type Expander = string -> string

  /** argContainer: a plain string argument. */
  datatype StrArg = StrArg(raw: string) {
    function Raw(): string { raw }
    function Value(expand: Expander): string { expand(raw) }
  }

  /** mappableArgContainer[T]: the expanded text passed through a mapper. */
  datatype MappedArg<T> = MappedArg(raw: string, mapper: string -> T) {
    function Raw(): string { raw }
    function Value(expand: Expander): T { mapper(expand(raw)) }
  }

  /** NewArgumentStr: Raw gives the text back, Value is the expansion of it. */
  function NewArgumentStr(value: string): (a: StrArg)
    ensures a.Raw() == value
    ensures forall expand: Expander :: a.Value(expand) == expand(value)
  {
    StrArg(value)
  }

  /** NewArgument: Raw gives the text back, Value maps its expansion. */
  function NewArgument<T>(value: string, mapper: string -> T): (a: MappedArg<T>)
    ensures a.Raw() == value
    ensures forall expand: Expander :: a.Value(expand) == mapper(expand(value))
  {
    MappedArg(value, mapper)
  }

  /** The four spellings NewArgumentBool accepts as true. */
  const TrueSpellings: set<string> := {"true", "1", "True", "TRUE"}

  /** The mapper of NewArgumentBool: an exact comparison, no trimming or case folding. */
  function IsTrue(s: string): bool {
    s == "true" || s == "1" || s == "True" || s == "TRUE"
  }

  /** NewArgumentBool: true exactly when the expanded text is one of the four spellings. */
  function NewArgumentBool(value: string): (a: MappedArg<bool>)
    ensures a.Raw() == value
    ensures forall expand: Expander :: a.Value(expand) <==> expand(value) in TrueSpellings
  {
    MappedArg(value, IsTrue)
  }

  /** Nothing close to a spelling counts: other words, other casings, padding. */
  lemma BoolIsExact()
    ensures !IsTrue("yes") && !IsTrue("tRUE") && !IsTrue(" true") && !IsTrue("true\n")
    ensures !IsTrue("0") && !IsTrue("false") && !IsTrue("")
  {
    assert "yes" != "true" && "yes" != "True";
    assert " true" != "true";
  }

  /** Raw never consults an expander, so asking for a value changes nothing. */
  lemma RawIgnoresExpander<T>(a: MappedArg<T>, e1: Expander, e2: Expander)
    ensures a.Raw() == a.raw
    ensures e1(a.raw) == e2(a.raw) ==> a.Value(e1) == a.Value(e2)
  {
  }
}

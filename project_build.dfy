/**
 * The build-step records of tools/project/build.py: `Rule`, `Object` and `Archive`.
 * What their `write` methods send to the ninja writer is modelled as a list of emissions.
 */
module ProjectBuild {
  import opened Paths

  /** What a record emits through the ninja writer. */
  datatype Emission = RuleEmission(name: string, command: seq<string>)

  /** A ninja rule: a name and a command line. */
  datatype Rule = Rule(name: string, command: seq<string>)

  /** The right-hand operand of `Rule.__eq__`: another Rule, or a value of any other type. */
  datatype Operand = RuleOperand(rule: Rule) | NonRule

  /** `Rule.__eq__`: equal exactly when the other operand is a Rule with the same name; the command is ignored. */
  function RuleEquals(r: Rule, other: Operand): (b: bool)
    ensures b <==> other.RuleOperand? && other.rule.name == r.name
    ensures other.NonRule? ==> !b
  {
    match other
    case RuleOperand(o) => r.name == o.name
    case NonRule => false
  }

  /** `Rule.__hash__`: Python's string hash (a parameter) applied to the name. */
  function RuleHash(r: Rule, hashStr: string -> int): int
  {
    hashStr(r.name)
  }

  /** Rules that compare equal hash equally, whatever the string hash is, so they collide in a set. */
  lemma EqualRulesHashEqually(a: Rule, b: Rule, hashStr: string -> int)
    requires RuleEquals(a, RuleOperand(b))
    ensures RuleHash(a, hashStr) == RuleHash(b, hashStr)
  {
  }

  /** Rule equality is an equivalence relation on rules (reflexive, symmetric, transitive). */
  lemma RuleEqualsIsEquivalence(a: Rule, b: Rule, c: Rule)
    ensures RuleEquals(a, RuleOperand(a))
    ensures RuleEquals(a, RuleOperand(b)) ==> RuleEquals(b, RuleOperand(a))
    ensures RuleEquals(a, RuleOperand(b)) && RuleEquals(b, RuleOperand(c)) ==> RuleEquals(a, RuleOperand(c))
  {
  }

  /** `Rule.write`: one rule declaration carrying the record's own name and command. */
  function RuleWrite(r: Rule): (e: seq<Emission>)
    ensures |e| == 1 && e[0].name == r.name && e[0].command == r.command
  {
    [RuleEmission(r.name, r.command)]
  }

  /** A compilation target: source, built object ("base"), extracted reference ("target"), DWARF dump, compiler, flags. */
  datatype Object = Object(src: Path, base: Path, target: Path, dwarf: Path, mwcc: Path, cflags: seq<string>)

  /** `Object.write` emits nothing. */
  function ObjectWrite(o: Object): (e: seq<Emission>)
    ensures |e| == 0
  {
    []
  }

  /** A reference archive, its extraction directory, and the set of member paths expected inside. */
  datatype Archive = Archive(src: Path, dst: Path, manifest: set<Path>)
}

/**
 * The loop of `main` in cwlgenerator.py that turns a tool's parameters
 * into its optional inputs: parameters whose name contains "sequence" are
 * skipped, every other one is synthesised at the next position, starting
 * after a base of 8, or 9 for the two-sequence tools.
 */
module Positions {
  import opened Wrappers
  import opened Strings
  import opened Descriptor

  /** The tools that take two sequences and so keep one more leading position. */
  const TwoSeqs: seq<string> := [
    "emboss_needle", "emboss_stretcher", "emboss_water",
    "emboss_matcher", "lalign", "genewise", "emboss_dotmatcher",
    "emboss_dotpath", "emboss_dottup", "promoterwise", "wise2dba"]

  /** The position before the first optional input of a tool. */
  function BasePosition(toolId: string): (p: int)
    ensures p == 9 || p == 8
    ensures p == 9 <==> toolId in TwoSeqs
  {
    if toolId in TwoSeqs then 9 else 8
  }

  /** A parameter becomes an optional input unless its name contains "sequence". */
  predicate IsOptional(name: string) {
    !IsSubstring("sequence", name)
  }

  /** The parameters that become optional inputs, in the order of the mapping. */
  function Optional(params: seq<(string, Parameter)>): seq<(string, Parameter)>
    decreases |params|
  {
    if params == [] then []
    else
      var last := params[|params| - 1];
      Optional(params[..|params| - 1]) + (if IsOptional(last.0) then [last] else [])
  }

  /** `texts[k]` is the block of the `k`-th input of `opt`, which `get_cwl_inputs` numbers `base + k + 1`. */
  predicate Synthesised(opt: seq<(string, Parameter)>, texts: seq<string>, base: int) {
    |texts| == |opt|
    && forall k :: 0 <= k < |opt| ==>
      CwlInput(opt[k].0, opt[k].1, base + k) == Success(Field(texts[k], base + k + 1))
  }

  /** The `k`-th input of `opt` is the first whose synthesis raises `err`. */
  predicate FailsFirstAt(opt: seq<(string, Parameter)>, base: int, k: int, err: Error) {
    0 <= k < |opt|
    && CwlInput(opt[k].0, opt[k].1, base + k) == Failure(err)
    && forall l :: 0 <= l < k ==> CwlInput(opt[l].0, opt[l].1, base + l).Success?
  }

  predicate FirstFailure(opt: seq<(string, Parameter)>, base: int, err: Error) {
    exists k :: 0 <= k < |opt| && FailsFirstAt(opt, base, k, err)
  }

  /**
   * The loop over `parameters.items()`: every optional parameter, in order,
   * gets the position after the previous one's; the first `KeyError` ends
   * the tool's generation.
   */
  method OptionalInputs(toolId: string, params: seq<(string, Parameter)>) returns (r: Result<seq<string>, Error>)
    ensures r.Success? ==> Synthesised(Optional(params), r.value, BasePosition(toolId))
    ensures r.Failure? ==> FirstFailure(Optional(params), BasePosition(toolId), r.error)
  {
    var position := 8;
    if toolId in TwoSeqs {
      position := 9;
    }
    ghost var base := BasePosition(toolId);
    assert position == base;
    var inputsOpt: seq<string> := [];
    for i := 0 to |params|
      invariant Synthesised(Optional(params[..i]), inputsOpt, base)
      invariant position == base + |inputsOpt|
    {
      var (name, parameter) := params[i];
      OptionalStep(params, i);
      if IsOptional(name) {
        var field := CwlInput(name, parameter, position);
        if field.Failure? {
          FailureAt(params, i, inputsOpt, base, field.error);
          return Failure(field.error);
        }
        SynthesisedSnoc(Optional(params[..i]), inputsOpt, base, params[i], field.value.text);
        inputsOpt := inputsOpt + [field.value.text];
        position := field.value.position;
      }
    }
    assert params[..|params|] == params;
    return Success(inputsOpt);
  }

  /** A block synthesised at the next position extends the synthesised inputs by one. */
  lemma SynthesisedSnoc(opt: seq<(string, Parameter)>, texts: seq<string>, base: int, p: (string, Parameter), t: string)
    requires Synthesised(opt, texts, base)
    requires CwlInput(p.0, p.1, base + |opt|) == Success(Field(t, base + |opt| + 1))
    ensures Synthesised(opt + [p], texts + [t], base)
  {
  }

  /** The first optional parameter whose synthesis fails is the first failure among all optional inputs. */
  lemma FailureAt(params: seq<(string, Parameter)>, i: nat, texts: seq<string>, base: int, err: Error)
    requires i < |params| && IsOptional(params[i].0)
    requires Synthesised(Optional(params[..i]), texts, base)
    requires CwlInput(params[i].0, params[i].1, base + |texts|) == Failure(err)
    ensures FirstFailure(Optional(params), base, err)
  {
    OptionalAt(params, i);
    assert FailsFirstAt(Optional(params), base, |texts|, err);
  }

  lemma {:induction false} OptionalAppend(a: seq<(string, Parameter)>, b: seq<(string, Parameter)>)
    ensures Optional(a + b) == Optional(a) + Optional(b)
    decreases |b|
  {
    if b == [] {
      assert a + b == a;
    } else {
      var n := |b| - 1;
      assert (a + b)[..|a + b| - 1] == a + b[..n];
      assert (a + b)[|a + b| - 1] == b[n];
      OptionalAppend(a, b[..n]);
    }
  }

  /** The optional parameters of a prefix come first among all of them. */
  lemma {:induction false} OptionalPrefix(params: seq<(string, Parameter)>, i: nat)
    requires i <= |params|
    ensures Optional(params) == Optional(params[..i]) + Optional(params[i..])
  {
    OptionalAppend(params[..i], params[i..]);
    assert params[..i] + params[i..] == params;
  }

  /** One more parameter adds itself to the optional ones when its name has no "sequence". */
  lemma OptionalStep(params: seq<(string, Parameter)>, i: nat)
    requires i < |params|
    ensures Optional(params[..i + 1])
      == Optional(params[..i]) + (if IsOptional(params[i].0) then [params[i]] else [])
  {
    assert params[..i + 1][..i] == params[..i];
  }

  /** An optional parameter comes, among all optional ones, right after those before it. */
  lemma OptionalAt(params: seq<(string, Parameter)>, i: nat)
    requires i < |params| && IsOptional(params[i].0)
    ensures var done := Optional(params[..i]);
      var opt := Optional(params);
      |done| < |opt| && opt[|done|] == params[i]
      && forall l :: 0 <= l < |done| ==> opt[l] == done[l]
  {
    OptionalStep(params, i);
    OptionalPrefix(params, i + 1);
  }

  /** Exactly the parameters without "sequence" in their name become optional inputs. */
  lemma {:induction false} OptionalMembers(params: seq<(string, Parameter)>, p: (string, Parameter))
    ensures p in Optional(params) <==> p in params && IsOptional(p.0)
    decreases |params|
  {
    if params != [] {
      var n := |params| - 1;
      OptionalMembers(params[..n], p);
      assert params == params[..n] + [params[n]];
    }
  }

  /** Of four parameters where only the first names a sequence, the three others become optional inputs. */
  lemma OptionalAfterSequence(params: seq<(string, Parameter)>)
    requires |params| == 4 && !IsOptional(params[0].0)
    requires IsOptional(params[1].0) && IsOptional(params[2].0) && IsOptional(params[3].0)
    ensures Optional(params) == params[1..]
  {
    assert params[..1][..0] == [];
    assert Optional(params[..1]) == [];
    assert params[..2][..1] == params[..1];
    assert Optional(params[..2]) == [params[1]];
    assert params[..3][..2] == params[..2];
    assert Optional(params[..3]) == [params[1], params[2]];
    assert params[..3] == params[..|params| - 1];
    assert params[1..] == [params[1], params[2], params[3]];
  }

  /**
   * A two-sequence tool whose parameters are `asequence`, `database`,
   * `matrix` and `format`: the three last are its optional inputs, at
   * positions 10, 11 and 12.
   * The example text is a parameter pinned by the `requires`, not a literal
   * in the statement, so that its characters are unfolded only inside the
   * small lemmas that need them.
   */
  lemma TwoSequenceExample(p: Parameter, seqName: string)
    requires seqName == "asequence"
    ensures var params := [(seqName, p), ("database", p), ("matrix", p), ("format", p)];
      var opt := Optional(params);
      |opt| == 3 && opt[0].0 == "database" && opt[1].0 == "matrix" && opt[2].0 == "format"
      && BasePosition("emboss_needle") == 9
      && ("name" in p.details && "description" in p.details ==>
        forall k :: 0 <= k < 3 ==>
          CwlInput(opt[k].0, opt[k].1, 9 + k).Success?
          && CwlInput(opt[k].0, opt[k].1, 9 + k).value.position == 10 + k)
  {
    NamesSequence(seqName);
    OtherNamesOptional();
    NeedleTakesTwo();
    var params := [(seqName, p), ("database", p), ("matrix", p), ("format", p)];
    OptionalAfterSequence(params);
    var opt := Optional(params);
    assert opt == [("database", p), ("matrix", p), ("format", p)];
    if "name" in p.details && "description" in p.details {
      assert forall k :: 0 <= k < |opt| ==> opt[k].1 == p;
      SamePositions(opt, 9);
    }
  }

  /** Inputs whose parameters all have both details are synthesised, each at the next position. */
  lemma SamePositions(opt: seq<(string, Parameter)>, base: int)
    requires forall k :: 0 <= k < |opt| ==> "name" in opt[k].1.details && "description" in opt[k].1.details
    ensures forall k :: 0 <= k < |opt| ==>
      CwlInput(opt[k].0, opt[k].1, base + k).Success?
      && CwlInput(opt[k].0, opt[k].1, base + k).value.position == base + k + 1
  {
  }

  lemma OtherNamesOptional()
    ensures IsOptional("database") && IsOptional("matrix") && IsOptional("format")
  {
    NotContainsSequence("database");
    NotContainsSequence("matrix");
    NotContainsSequence("format");
  }

  /** `emboss_needle` is a two-sequence tool. */
  lemma NeedleTakesTwo()
    ensures BasePosition("emboss_needle") == 9
  {
  }

  lemma NamesSequence(seqName: string)
    requires seqName == "asequence"
    ensures !IsOptional(seqName)
  {
    assert seqName[1..9] == "sequence";
    assert OccursAt("sequence", seqName, 1);
    SubstringAt("sequence", seqName);
  }

  lemma NotContainsSequence(name: string)
    requires forall i :: 0 <= i < |name| ==> name[i] != 'q'
    ensures IsOptional(name)
  {
    MissingChar("sequence", name, 2);
  }
}

/**
 * The first user message: the fixed explanation, the example corpus and the
 * task template with its named holes filled from the caller's `holes` map.
 *
 * The template is taken as what `str.format` sees in it: literal text
 * interleaved with `{name}` fields. Filling fails with the name of the first
 * field, in template order, that the map does not supply (Python's
 * `KeyError`); keys the template never names are ignored.
 */
module Prompt {
  import opened Wrappers

  datatype Chunk = Literal(text: string) | Hole(name: string)

  // The literal text between the holes of `input_template`, exactly as written.
  const TaskBanner: string :=
    "\n========================= Task =========================\n\n=== Source code === \n\n"
  const SourceTreeHeading: string := "\n\n=== Tree-sitter representation (source code) ===\n\n"
  const TargetTreeHeading: string := "\n\n=== Tree-sitter representation (target code) ===\n\n"
  const DiffHeading: string := "\n\n=== Diff === \n\n"
  const HintsHeading: string := "\n\n=== Additional requirements === \n\n"
  const ClosingBanner: string :=
    "\n========================= Please improve my rule =========================\n\n    "

  /** The shape of `input_template`: six literal texts around the five named holes. */
  function TaskTemplate(l0: string, l1: string, l2: string, l3: string, l4: string, l5: string): seq<Chunk> {
    [Literal(l0), Hole("source_code"),
     Literal(l1), Hole("source_tree"),
     Literal(l2), Hole("target_tree"),
     Literal(l3), Hole("diff"),
     Literal(l4), Hole("hints"),
     Literal(l5)]
  }

  const InputTemplate: seq<Chunk> :=
    TaskTemplate(TaskBanner, SourceTreeHeading, TargetTreeHeading, DiffHeading, HintsHeading, ClosingBanner)

  const RequiredHoles: set<string> := {"source_code", "source_tree", "target_tree", "diff", "hints"}

  /** Every hole of `t` has a value in `holes`. */
  predicate Supplied(t: seq<Chunk>, holes: map<string, string>) {
    forall i :: 0 <= i < |t| && t[i].Hole? ==> t[i].name in holes
  }

  /** `template.format(**holes)`: succeeds exactly when every hole is supplied. */
  function Fill(t: seq<Chunk>, holes: map<string, string>): (r: Result<string, string>)
    ensures r.Ok? <==> Supplied(t, holes)
  {
    if t == [] then Ok([])
    else
      var rest := Fill(t[1..], holes);
      assert forall i :: 0 <= i < |t| - 1 ==> t[1..][i] == t[i + 1];
      match t[0]
      case Hole(n) =>
        if n !in holes then Err(n)
        else if rest.Err? then rest
        else Ok(holes[n] + rest.value)
      case Literal(s) =>
        if rest.Err? then rest
        else Ok(s + rest.value)
  }

  /**
   * A failed fill names the first hole, in template order, that the map does
   * not supply: a missing hole, with every hole before it supplied.
   */
  lemma {:induction false} FillNamesFirstMissing(t: seq<Chunk>, holes: map<string, string>)
    requires Fill(t, holes).Err?
    ensures Fill(t, holes).error !in holes
    ensures exists i :: 0 <= i < |t| && t[i] == Hole(Fill(t, holes).error) && Supplied(t[..i], holes)
  {
    var n := Fill(t, holes).error;
    if t[0].Hole? && t[0].name !in holes {
      assert t[..0] == [];
      assert t[0] == Hole(n);
    } else {
      assert Fill(t[1..], holes) == Fill(t, holes);
      FillNamesFirstMissing(t[1..], holes);
      var j :| 0 <= j < |t| - 1 && t[1..][j] == Hole(n) && Supplied(t[1..][..j], holes);
      assert t[..j + 1] == [t[0]] + t[1..][..j];
      assert t[j + 1] == Hole(n);
    }
  }

  /** Filling depends only on the values of the holes the template names. */
  lemma {:induction false} FillReadsOnlyItsHoles(t: seq<Chunk>, h1: map<string, string>, h2: map<string, string>)
    requires forall i :: 0 <= i < |t| && t[i].Hole? ==>
               (t[i].name in h1 <==> t[i].name in h2) &&
               (t[i].name in h1 ==> h1[t[i].name] == h2[t[i].name])
    ensures Fill(t, h1) == Fill(t, h2)
  {
    if t != [] {
      assert forall i :: 0 <= i < |t| - 1 ==> t[1..][i] == t[i + 1];
      FillReadsOnlyItsHoles(t[1..], h1, h2);
    }
  }

  /** Extra keys that name no hole of the template are ignored. */
  lemma FillIgnoresExtraKeys(t: seq<Chunk>, holes: map<string, string>, extra: map<string, string>)
    requires forall i :: 0 <= i < |t| && t[i].Hole? ==> t[i].name !in extra
    ensures Fill(t, holes + extra) == Fill(t, holes)
  {
    FillReadsOnlyItsHoles(t, holes + extra, holes);
  }

  /** Whatever its literal text, the template's holes are exactly the five required names. */
  lemma TemplateHoles(l0: string, l1: string, l2: string, l3: string, l4: string, l5: string)
    ensures forall i :: 0 <= i < 11 ==>
              (TaskTemplate(l0, l1, l2, l3, l4, l5)[i].Hole? <==> i % 2 == 1)
    ensures forall i :: 0 <= i < 11 && TaskTemplate(l0, l1, l2, l3, l4, l5)[i].Hole? ==>
              TaskTemplate(l0, l1, l2, l3, l4, l5)[i].name in RequiredHoles
  {
  }

  /** The task template needs exactly the five named holes. */
  lemma InputTemplateNeeds(holes: map<string, string>)
    ensures Supplied(InputTemplate, holes) <==> RequiredHoles <= holes.Keys
  {
    TemplateNeeds(TaskBanner, SourceTreeHeading, TargetTreeHeading, DiffHeading, HintsHeading, ClosingBanner, holes);
  }

  lemma TemplateNeeds(l0: string, l1: string, l2: string, l3: string, l4: string, l5: string, holes: map<string, string>)
    ensures Supplied(TaskTemplate(l0, l1, l2, l3, l4, l5), holes) <==> RequiredHoles <= holes.Keys
  {
    var t := TaskTemplate(l0, l1, l2, l3, l4, l5);
    assert t[1] == Hole("source_code") && t[3] == Hole("source_tree") && t[5] == Hole("target_tree");
    assert t[7] == Hole("diff") && t[9] == Hole("hints");
    TemplateHoles(l0, l1, l2, l3, l4, l5);
  }

  /** The filled template for given literal text: the literal text with each value in its place. */
  function TaskTextOf(l0: string, l1: string, l2: string, l3: string, l4: string, l5: string,
                      holes: map<string, string>): string
    requires RequiredHoles <= holes.Keys
  {
    l0 + holes["source_code"] +
    l1 + holes["source_tree"] +
    l2 + holes["target_tree"] +
    l3 + holes["diff"] +
    l4 + holes["hints"] +
    l5
  }

  /** The task text once every hole is filled. */
  function TaskText(holes: map<string, string>): string
    requires RequiredHoles <= holes.Keys
  {
    TaskTextOf(TaskBanner, SourceTreeHeading, TargetTreeHeading, DiffHeading, HintsHeading, ClosingBanner, holes)
  }

  /**
   * Eleven strings concatenated from the right equal the same strings concatenated
   * from the left. Stated over plain variables so that `FillTaskTemplate` regroups
   * without unfolding the template's literal text.
   */
  lemma Regroup(s0: string, s1: string, s2: string, s3: string, s4: string, s5: string,
                s6: string, s7: string, s8: string, s9: string, s10: string)
    ensures s0 + (s1 + (s2 + (s3 + (s4 + (s5 + (s6 + (s7 + (s8 + (s9 + s10))))))))) ==
            s0 + s1 + s2 + s3 + s4 + s5 + s6 + s7 + s8 + s9 + s10
  {
  }

  /** Filling from chunk `k` on: chunk `k`'s text, or its hole's value, before the fill of the rest. */
  lemma FillFrom(t: seq<Chunk>, holes: map<string, string>, k: nat)
    requires k < |t| && Fill(t[k + 1..], holes).Ok?
    requires t[k].Hole? ==> t[k].name in holes
    ensures Fill(t[k..], holes) ==
              Ok((if t[k].Hole? then holes[t[k].name] else t[k].text) + Fill(t[k + 1..], holes).value)
  {
    assert t[k..][0] == t[k];
    assert t[k..][1..] == t[k + 1..];
  }

  /** Filling the second half of a task template, from its last chunk back to the `target_tree` hole. */
  lemma FillTemplateTail(l0: string, l1: string, l2: string, l3: string, l4: string, l5: string,
                         holes: map<string, string>)
    requires RequiredHoles <= holes.Keys
    ensures Fill(TaskTemplate(l0, l1, l2, l3, l4, l5)[5..], holes) ==
              Ok(holes["target_tree"] + (l3 + (holes["diff"] + (l4 + (holes["hints"] + l5)))))
  {
    var t := TaskTemplate(l0, l1, l2, l3, l4, l5);
    assert t[11..] == [];
    FillFrom(t, holes, 10);
    assert l5 + [] == l5;
    FillFrom(t, holes, 9);
    FillFrom(t, holes, 8);
    FillFrom(t, holes, 7);
    FillFrom(t, holes, 6);
    FillFrom(t, holes, 5);
  }

  /** With every hole supplied, a task template fills to its literal text with each value in its place. */
  lemma FillTaskTemplate(l0: string, l1: string, l2: string, l3: string, l4: string, l5: string,
                         holes: map<string, string>)
    requires RequiredHoles <= holes.Keys
    ensures Fill(TaskTemplate(l0, l1, l2, l3, l4, l5), holes) == Ok(TaskTextOf(l0, l1, l2, l3, l4, l5, holes))
  {
    var t := TaskTemplate(l0, l1, l2, l3, l4, l5);
    FillTemplateTail(l0, l1, l2, l3, l4, l5, holes);
    FillFrom(t, holes, 4);
    FillFrom(t, holes, 3);
    FillFrom(t, holes, 2);
    FillFrom(t, holes, 1);
    FillFrom(t, holes, 0);
    assert t[0..] == t;
    Regroup(l0, holes["source_code"], l1, holes["source_tree"], l2, holes["target_tree"],
            l3, holes["diff"], l4, holes["hints"], l5);
  }

  /** With every hole supplied, the task text is the template's literal text with each value in its place. */
  lemma FillInputTemplate(holes: map<string, string>)
    requires RequiredHoles <= holes.Keys
    ensures Fill(InputTemplate, holes) == Ok(TaskText(holes))
  {
    FillTaskTemplate(TaskBanner, SourceTreeHeading, TargetTreeHeading, DiffHeading, HintsHeading, ClosingBanner, holes);
  }

  /** A map missing a required hole makes filling fail, naming a missing required hole. */
  lemma MissingHoleFails(holes: map<string, string>)
    requires !(RequiredHoles <= holes.Keys)
    ensures Fill(InputTemplate, holes).Err?
    ensures Fill(InputTemplate, holes).error in RequiredHoles - holes.Keys
  {
    TemplateMissingHole(TaskBanner, SourceTreeHeading, TargetTreeHeading, DiffHeading, HintsHeading, ClosingBanner, holes);
  }

  lemma TemplateMissingHole(l0: string, l1: string, l2: string, l3: string, l4: string, l5: string,
                            holes: map<string, string>)
    requires !(RequiredHoles <= holes.Keys)
    ensures Fill(TaskTemplate(l0, l1, l2, l3, l4, l5), holes).Err?
    ensures Fill(TaskTemplate(l0, l1, l2, l3, l4, l5), holes).error in RequiredHoles - holes.Keys
  {
    var t := TaskTemplate(l0, l1, l2, l3, l4, l5);
    TemplateNeeds(l0, l1, l2, l3, l4, l5, holes);
    FillNamesFirstMissing(t, holes);
    TemplateHoles(l0, l1, l2, l3, l4, l5);
  }

  /** `explanation + "\n" + examples + "\n" + input_template.format(**holes)` */
  function InitialPrompt(explanation: string, examples: string, holes: map<string, string>): (r: Result<string, string>)
    ensures r.Ok? <==> RequiredHoles <= holes.Keys
    ensures r.Err? ==> r.error in RequiredHoles - holes.Keys
  {
    InputTemplateNeeds(holes);
    var task := Fill(InputTemplate, holes);
    if task.Err? then
      MissingHoleFails(holes);
      Err(task.error)
    else Ok(explanation + "\n" + examples + "\n" + task.value)
  }

  /**
   * The first prompt holds the explanation, the corpus and then every hole's
   * value verbatim, in that order, between the template's literal text; and it
   * can be built exactly when all five holes are supplied.
   */
  lemma InitialPromptLayout(explanation: string, examples: string, holes: map<string, string>)
    ensures InitialPrompt(explanation, examples, holes).Ok? <==> RequiredHoles <= holes.Keys
    ensures RequiredHoles <= holes.Keys ==>
              InitialPrompt(explanation, examples, holes) ==
                Ok(explanation + "\n" + examples + "\n" + TaskText(holes))
  {
    InputTemplateNeeds(holes);
    if RequiredHoles <= holes.Keys {
      FillInputTemplate(holes);
    }
  }
}

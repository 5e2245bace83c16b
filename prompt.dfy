/** `prompt_engineering`: turns one case-holding example into the question
    put to the model, keeping its label. */
module Prompt {
  import opened Outcome
  import opened PyStr

  /** The marker at which the case context is cut. */
  const Marker: string := "(<HOLDING>)"

  const ExcerptTag: string := "\nExcerpt: "
  const ChoicesTag: string := "\nChoices: "

  /** The ten paraphrased instructions one of which opens every question.
      Each is written as its opening words plus the rest, so that the
      verifier sees the characters that tell the ten apart. */
  const PromptCands: seq<string> := [
    "Please select the" + " most suitable summary of the legal ruling that accompanies the relevant referenced decisions for the specific case. The following excerpt is from the court's decision.",
    "Kindly choose the" + " concise summary of the legal ruling that accompanies the relevant referenced decisions applicable to the given case. Provided below is an excerpt from the court decision.",
    "Please decide on the" + " most appropriate summary of the legal ruling that accompanies the relevant referenced decisions, which are relevant to the given case. Here is an excerpt from the court decision for your consideration.",
    "Here is an excerpt" + " from the court decision for the case. Please choose the most appropriate short summary of the legal ruling that accompanies the referenced decisions relevant to the case.",
    "Consider the" + " following excerpt from the court decision for the case. Your task is to select the most appropriate short summary of the legal ruling that accompanies the referenced decisions relevant to the case.",
    "Given the excerpt" + " from the court decision for the case, your task is to choose the most appropriate short summary of the legal ruling that accompanies the referenced decisions relevant to the case.",
    "Please refer to the" + " following excerpt from the court decision for the case. Your task is to choose the most appropriate short summary of the legal ruling that accompanies the referenced decisions relevant to the case.",
    "Your task is to" + " choose the most appropriate short summary of the legal ruling that accompanies the referenced decisions relevant to the case, using the excerpt from the court decision provided below.",
    "Please review the" + " following excerpt from the court decision for the case. Your task is to choose the most appropriate short summary of the legal ruling that accompanies the referenced decisions relevant to the case.",
    "Here is the excerpt" + " from the court decision for the case. Your task is to choose the most appropriate short summary of the legal ruling that accompanies the referenced decisions relevant to the case."
  ]

  /** A case-holding example as read from the dataset; `gold` is its
      `label`, the index of the correct ending. */
  datatype Example = Example(context: string, endings: seq<string>, gold: int)

  /** The record `prompt_engineering` returns: the question and the label,
      and no other field (`gold` is the `label` key). */
  datatype Prompted = Prompted(question: string, gold: int)

  /** The part of the case context shown to the model: `context[:k]` where
      `k` is `context.find(Marker)`. When the marker is missing, `k` is -1
      and the slice quietly drops the last character of the context. */
  function Excerpt(context: string): (e: string)
    ensures IsPrefix(e, context)
    ensures !Contains(e, Marker)
    ensures Contains(context, Marker) ==>
      OccursAt(context, Marker, |e|) && forall j :: 0 <= j < |e| ==> !OccursAt(context, Marker, j)
    ensures !Contains(context, Marker) ==>
      |e| == if context == [] then 0 else |context| - 1
  {
    var e := PrefixSlice(context, Find(context, Marker));
    assert !Contains(e, Marker) by {
      forall j | OccursAt(e, Marker, j) ensures false {
        OccursInPrefix(e, context, Marker, j);
      }
      ContainsIff(e, Marker);
    }
    e
  }

  /** One entry of the choices list: `str(n) + ": " + ending`. */
  function Choice(n: nat, ending: string): string
  {
    IntToString(n) + ": " + ending
  }

  /** The choices list: the endings numbered from 0, in their order. */
  function Choices(endings: seq<string>): (r: seq<string>)
    ensures |r| == |endings|
  {
    seq(|endings|, n requires 0 <= n < |endings| => Choice(n, endings[n]))
  }

  /** Reads a choice entry back into its number and its ending; None when
      the string is not of the form `digits + ": " + text`. */
  function ParseChoice(s: string): Option<(nat, string)>
  {
    var i := Find(s, ": ");
    if i <= 0 then None
    else if forall j :: 0 <= j < i ==> IsDigit(s[j]) then Some((ParseNat(s[..i]), s[i + 2..]))
    else None
  }

  /** Entry `n` of the choices list names ending `n` under the number `n`. */
  lemma ChoicesRoundTrip(endings: seq<string>, n: nat)
    requires n < |endings|
    ensures ParseChoice(Choices(endings)[n]) == Some((n, endings[n]))
  {
    var d := IntToString(n);
    var s := Choices(endings)[n];
    assert s == d + ": " + endings[n];
    assert OccursAt(s, ": ", |d|) by {
      assert s[|d|..|d| + 2] == ": ";
    }
    var i := Find(s, ": ");
    assert s[..i] == d;
    assert s[i + 2..] == endings[n];
    ParseIntToString(n);
  }

  /** A list element as the list's text shows it, between single quotes. */
  function Quote(c: string): string
  {
    "'" + c + "'"
  }

  /** The quoted elements separated by ", ". */
  function Join(xs: seq<string>): string
  {
    if |xs| == 0 then ""
    else if |xs| == 1 then Quote(xs[0])
    else Quote(xs[0]) + ", " + Join(xs[1..])
  }

  /** The text of a list of strings, as an f-string shows it: brackets
      around the quoted elements, every element shown. */
  function Render(xs: seq<string>): (r: string)
    ensures |r| >= 2 && r[0] == '[' && r[|r| - 1] == ']'
    ensures xs == [] ==> r == "[]"
    ensures forall i :: 0 <= i < |xs| ==> Contains(r, Quote(xs[i]))
  {
    var r := "[" + Join(xs) + "]";
    assert forall i :: 0 <= i < |xs| ==> Contains(r, Quote(xs[i])) by {
      forall i | 0 <= i < |xs| ensures Contains(r, Quote(xs[i])) {
        var q := JoinShows(xs, i);
        OccursInRight("[", Join(xs), Quote(xs[i]), q);
        OccursInLeft("[" + Join(xs), "]", Quote(xs[i]), 1 + q);
        ContainsIff(r, Quote(xs[i]));
      }
    }
    r
  }

  /** Every element of the list is shown, quoted, inside its rendering. */
  lemma {:induction false} JoinShows(xs: seq<string>, i: nat) returns (p: nat)
    requires i < |xs|
    ensures OccursAt(Join(xs), Quote(xs[i]), p)
  {
    if |xs| == 1 {
      p := 0;
      assert Join(xs)[0..|Quote(xs[0])|] == Quote(xs[0]);
    } else if i == 0 {
      p := 0;
      assert OccursAt(Quote(xs[0]), Quote(xs[0]), 0);
      OccursInLeft(Quote(xs[0]), ", " + Join(xs[1..]), Quote(xs[0]), 0);
    } else {
      var q := JoinShows(xs[1..], i - 1);
      OccursInRight(Quote(xs[0]) + ", ", Join(xs[1..]), Quote(xs[i]), q);
      p := |Quote(xs[0]) + ", "| + q;
    }
  }

  /** The question text: template `k`, the excerpt under its heading and
      the rendered choices under theirs. The template can be read back. */
  function Question(k: nat, excerpt: string, choices: seq<string>): (q: string)
    requires k < |PromptCands|
    ensures TemplateOf(q) == Some(k)
    ensures OccursAt(q, ExcerptTag, |PromptCands[k]|)
    ensures OccursAt(q, excerpt, |PromptCands[k]| + |ExcerptTag|)
    ensures OccursAt(q, ChoicesTag + Render(choices), |PromptCands[k]| + |ExcerptTag| + |excerpt|)
    ensures |q| == |PromptCands[k]| + |ExcerptTag| + |excerpt| + |ChoicesTag + Render(choices)|
    ensures forall n :: 0 <= n < |choices| ==> Contains(q, Quote(choices[n]))
  {
    var t := PromptCands[k];
    var q := Layout(t, excerpt, choices);
    LayoutShows(t, excerpt, choices);
    LayoutTemplate(k, excerpt, choices);
    q
  }

  /** `prompt_engineering`, with the template that `random.choice` would
      pick given as the index `k`. */
  function PromptEngineering(ex: Example, k: nat): (r: Prompted)
    requires k < |PromptCands|
    ensures r.gold == ex.gold
  {
    Prompted(Question(k, Excerpt(ex.context), Choices(ex.endings)), ex.gold)
  }

  /** Which template a question opens with, if any. */
  function TemplateOf(q: string): (r: Option<nat>)
    ensures r.Some? ==> r.value < |PromptCands| && IsPrefix(PromptCands[r.value], q)
    ensures r.None? ==> forall k :: 0 <= k < |PromptCands| ==> !IsPrefix(PromptCands[k], q)
  {
    TemplateFrom(q, 0)
  }

  function TemplateFrom(q: string, k: nat): (r: Option<nat>)
    requires k <= |PromptCands|
    ensures r.Some? ==> k <= r.value < |PromptCands| && IsPrefix(PromptCands[r.value], q)
    ensures r.None? ==> forall i :: k <= i < |PromptCands| ==> !IsPrefix(PromptCands[i], q)
    decreases |PromptCands| - k
  {
    if k == |PromptCands| then None
    else if IsPrefix(PromptCands[k], q) then Some(k)
    else TemplateFrom(q, k + 1)
  }

  /** Four character positions that already tell the ten templates apart. */
  function Key(t: string): (char, char, char, char)
    requires |t| >= 10
  {
    (t[0], t[7], t[8], t[9])
  }

  const Keys: seq<(char, char, char, char)> := [
    ('P', 's', 'e', 'l'), ('K', 'c', 'h', 'o'), ('P', 'd', 'e', 'c'), ('H', ' ', 'a', 'n'),
    ('C', 'r', ' ', 't'), ('G', 'h', 'e', ' '), ('P', 'r', 'e', 'f'), ('Y', 's', 'k', ' '),
    ('P', 'r', 'e', 'v'), ('H', ' ', 't', 'h')
  ]

  lemma KeyOf(i: nat)
    requires i < |PromptCands|
    ensures |PromptCands[i]| >= 10 && Key(PromptCands[i]) == Keys[i]
  {
    if i == 0 {} else if i == 1 {} else if i == 2 {} else if i == 3 {} else if i == 4 {}
    else if i == 5 {} else if i == 6 {} else if i == 7 {} else if i == 8 {} else {}
  }

  lemma KeysDistinct(i: nat, k: nat)
    requires i < |Keys| && k < |Keys| && i != k
    ensures Keys[i] != Keys[k]
  {
  }

  /** The template a question was built from can be read back from it. */
  lemma TemplateRecovered(k: nat, rest: string)
    requires k < |PromptCands|
    ensures TemplateOf(PromptCands[k] + rest) == Some(k)
  {
    var q := PromptCands[k] + rest;
    assert IsPrefix(PromptCands[k], q);
    var i := TemplateOf(q).value;
    if i != k {
      KeyOf(i);
      KeyOf(k);
      KeysDistinct(i, k);
      SameKey(PromptCands[i], q);
      SameKey(PromptCands[k], q);
      assert false;
    }
  }

  /** A template that opens `q` has the key of `q`'s own first characters. */
  lemma SameKey(t: string, q: string)
    requires |t| >= 10 && IsPrefix(t, q)
    ensures Key(t) == Key(q[..10])
  {
    assert t[..10] == q[..10];
  }

  /** The layout of a question built from any template `t`. */
  function Layout(t: string, e: string, cs: seq<string>): string
  {
    (t + ExcerptTag) + (e + (ChoicesTag + Render(cs)))
  }

  /** A question laid out from template `k` names `k` as its template. */
  lemma LayoutTemplate(k: nat, e: string, cs: seq<string>)
    requires k < |PromptCands|
    ensures TemplateOf(Layout(PromptCands[k], e, cs)) == Some(k)
  {
    var rest := ExcerptTag + (e + (ChoicesTag + Render(cs)));
    assert Layout(PromptCands[k], e, cs) == PromptCands[k] + rest;
    TemplateRecovered(k, rest);
  }

  /** In a question laid out from any template `t`, the excerpt heading
      follows the template, the excerpt follows its heading, the choices
      heading and the rendered choices close the text, and every choice is
      listed. */
  lemma LayoutShows(t: string, e: string, cs: seq<string>)
    ensures IsPrefix(t, Layout(t, e, cs))
    ensures OccursAt(Layout(t, e, cs), ExcerptTag, |t|)
    ensures OccursAt(Layout(t, e, cs), e, |t| + |ExcerptTag|)
    ensures OccursAt(Layout(t, e, cs), ChoicesTag + Render(cs), |t| + |ExcerptTag| + |e|)
    ensures |Layout(t, e, cs)| == |t| + |ExcerptTag| + |e| + |ChoicesTag + Render(cs)|
    ensures forall n :: 0 <= n < |cs| ==> Contains(Layout(t, e, cs), Quote(cs[n]))
  {
    LayoutParts(t, ExcerptTag, e, ChoicesTag + Render(cs));
    forall n | 0 <= n < |cs|
      ensures Contains(Layout(t, e, cs), Quote(cs[n]))
    {
      LayoutShowsChoice(t, e, cs, n);
    }
  }

  /** The four parts of `(a + b) + (c + d)` sit one after the other. */
  lemma LayoutParts(a: string, b: string, c: string, d: string)
    ensures IsPrefix(a, (a + b) + (c + d))
    ensures OccursAt((a + b) + (c + d), b, |a|)
    ensures OccursAt((a + b) + (c + d), c, |a| + |b|)
    ensures OccursAt((a + b) + (c + d), d, |a| + |b| + |c|)
  {
    var q := (a + b) + (c + d);
    assert q[..|a|] == a;
    assert q[|a|..|a| + |b|] == b;
    assert q[|a| + |b|..|a| + |b| + |c|] == c;
    assert q[|a| + |b| + |c|..|a| + |b| + |c| + |d|] == d;
  }

  lemma LayoutShowsChoice(t: string, e: string, cs: seq<string>, n: nat)
    requires n < |cs|
    ensures Contains(Layout(t, e, cs), Quote(cs[n]))
  {
    var p := Find(Render(cs), Quote(cs[n]));
    OccursInRight(ChoicesTag, Render(cs), Quote(cs[n]), p);
    OccursInRight(e, ChoicesTag + Render(cs), Quote(cs[n]), |ChoicesTag| + p);
    OccursInRight(t + ExcerptTag, e + (ChoicesTag + Render(cs)), Quote(cs[n]), |e| + |ChoicesTag| + p);
    ContainsIff(Layout(t, e, cs), Quote(cs[n]));
  }

  /** What a prompted example carries: the label unchanged, and a question
      that opens with template `k`, then the excerpt heading, the excerpt,
      the choices heading and the rendered choices, listing every numbered
      ending. */
  lemma PromptEngineeringSpec(ex: Example, k: nat)
    requires k < |PromptCands|
    ensures PromptEngineering(ex, k).gold == ex.gold
    ensures TemplateOf(PromptEngineering(ex, k).question) == Some(k)
    ensures OccursAt(PromptEngineering(ex, k).question, ExcerptTag, |PromptCands[k]|)
    ensures OccursAt(PromptEngineering(ex, k).question, Excerpt(ex.context), |PromptCands[k]| + |ExcerptTag|)
    ensures OccursAt(PromptEngineering(ex, k).question, ChoicesTag + Render(Choices(ex.endings)),
                     |PromptCands[k]| + |ExcerptTag| + |Excerpt(ex.context)|)
    ensures forall n :: 0 <= n < |ex.endings| ==>
      Contains(PromptEngineering(ex, k).question, Quote(Choice(n, ex.endings[n])))
  {
    var cs := Choices(ex.endings);
    forall n | 0 <= n < |ex.endings|
      ensures Contains(PromptEngineering(ex, k).question, Quote(Choice(n, ex.endings[n])))
    {
      assert cs[n] == Choice(n, ex.endings[n]);
    }
  }
}

/**
 * Template expansion (`mapTemplate`): every `(name, values)` pair is popped off
 * the argument list, last pair first, and slot `i` of the output receives
 * `${name}` replaced by `values[i]`, a slot being seeded with the template text
 * the first time a pair reaches it.
 */
module Template {
  import opened Text

  /** One argument of `mapTemplate`: a placeholder name and its list of values. */
  datatype Substitution = Substitution(name: string, values: seq<string>)

  /** `'${' + name + '}'` */
  function Token(name: string): (r: string)
    ensures |r| == |name| + 3 && r[0] == '$' && r[1] == '{' && r[|r| - 1] == '}'
    ensures r[2..|r| - 1] == name
  {
    "${" + name + "}"
  }

  /** What handling the pair `sub` does to the text of slot `i`. */
  function Step(sub: Substitution, text: string, i: nat): string
  {
    if i < |sub.values| then ReplaceAll(text, Token(sub.name), sub.values[i]) else text
  }

  /**
   * The final text of slot `i`: the template with the pairs applied in the
   * order they are popped (the last argument acts first), each only when its
   * list of values is longer than `i`.
   */
  function Slot(template: string, subs: seq<Substitution>, i: nat): string
  {
    if subs == [] then template else Step(subs[0], Slot(template, subs[1..], i), i)
  }

  /** The length of the longest list of values. */
  function Longest(subs: seq<Substitution>): (r: nat)
    ensures forall j :: 0 <= j < |subs| ==> |subs[j].values| <= r
    ensures subs != [] ==> exists j :: 0 <= j < |subs| && |subs[j].values| == r
    ensures subs == [] ==> r == 0
  {
    if subs == [] then 0
    else
      var rest := Longest(subs[1..]);
      assert forall j :: 1 <= j < |subs| ==> subs[j] == subs[1..][j - 1];
      if |subs[0].values| >= rest then |subs[0].values| else rest
  }

  /** The texts of all slots, one per index below the longest list. */
  function Expansions(template: string, subs: seq<Substitution>): (r: seq<string>)
    ensures |r| == Longest(subs)
    ensures forall i :: 0 <= i < |r| ==> r[i] == Slot(template, subs, i)
  {
    seq(Longest(subs), i requires 0 <= i < Longest(subs) => Slot(template, subs, i))
  }

  /** A slot no list reaches is the bare template. */
  lemma {:induction false} SlotBeyond(template: string, subs: seq<Substitution>, i: nat)
    requires i >= Longest(subs)
    ensures Slot(template, subs, i) == template
  {
    if subs != [] {
      SlotBeyond(template, subs[1..], i);
    }
  }

  /**
   * One pass of `mapTemplate`'s `for` loop: slots below `|sub.values|` that do
   * not exist yet are seeded with the template, then each gets the pair's value.
   */
  method ApplyPair(files: seq<string>, template: string, sub: Substitution) returns (next: seq<string>)
    ensures |next| == if |sub.values| <= |files| then |files| else |sub.values|
    ensures forall j :: 0 <= j < |next| ==>
      next[j] == Step(sub, if j < |files| then files[j] else template, j)
  {
    next := files;
    var i := 0;
    while i < |sub.values|
      invariant 0 <= i <= |sub.values|
      invariant |next| == if i <= |files| then |files| else i
      invariant forall j :: 0 <= j < i ==> next[j] == Step(sub, if j < |files| then files[j] else template, j)
      invariant forall j :: i <= j < |next| ==> next[j] == files[j]
    {
      if i == |next| {
        next := next + [template];
      }
      next := next[i := ReplaceAll(next[i], Token(sub.name), sub.values[i])];
      i := i + 1;
    }
  }

  /** `mapTemplate`'s `while` loop, which pops the pairs, before each text is wrapped as a document. */
  method ExpandTemplate(template: string, substitutions: seq<Substitution>) returns (files: seq<string>)
    ensures |files| == Longest(substitutions)
    ensures forall i :: 0 <= i < |files| ==> files[i] == Slot(template, substitutions, i)
    ensures substitutions == [] ==> files == []
  {
    var pending := substitutions;
    files := [];
    while |pending| > 0
      invariant |pending| <= |substitutions| && pending == substitutions[..|pending|]
      invariant |files| == Longest(substitutions[|pending|..])
      invariant forall i :: 0 <= i < |files| ==> files[i] == Slot(template, substitutions[|pending|..], i)
    {
      ghost var done := substitutions[|pending|..];
      var sub := pending[|pending| - 1];
      pending := pending[..|pending| - 1];
      assert substitutions[|pending|..] == [sub] + done;
      ghost var old_files := files;
      files := ApplyPair(files, template, sub);
      forall j | |old_files| <= j < |files| ensures Slot(template, done, j) == template {
        SlotBeyond(template, done, j);
      }
    }
    assert substitutions[0..] == substitutions;
  }

  /** The last argument is applied first. */
  lemma {:induction false} SlotLastFirst(template: string, subs: seq<Substitution>, last: Substitution, i: nat)
    ensures Slot(template, subs + [last], i) == Slot(Step(last, template, i), subs, i)
  {
    if subs != [] {
      assert (subs + [last])[1..] == subs[1..] + [last];
      SlotLastFirst(template, subs[1..], last, i);
    }
  }

  /** The pairs whose list of values is longer than `i`. */
  function Reaching(subs: seq<Substitution>, i: nat): (r: seq<Substitution>)
    ensures forall j :: 0 <= j < |r| ==> i < |r[j].values|
  {
    if subs == [] then []
    else if i < |subs[0].values| then [subs[0]] + Reaching(subs[1..], i)
    else Reaching(subs[1..], i)
  }

  /** Every pair replaces its placeholder, using its value at `i`. */
  function SubstituteAll(template: string, subs: seq<Substitution>, i: nat): string
    requires forall j :: 0 <= j < |subs| ==> i < |subs[j].values|
  {
    if subs == [] then template
    else ReplaceAll(SubstituteAll(template, subs[1..], i), Token(subs[0].name), subs[0].values[i])
  }

  /** Slot `i` is substituted by exactly the pairs whose list is longer than `i`, and by no other. */
  lemma {:induction false} SlotUsesReachingPairs(template: string, subs: seq<Substitution>, i: nat)
    ensures Slot(template, subs, i) == SubstituteAll(template, Reaching(subs, i), i)
  {
    if subs != [] {
      SlotUsesReachingPairs(template, subs[1..], i);
    }
  }

  /**
   * With lists of one common length `n`, there are `n` outputs and output `i`
   * has every placeholder replaced by its `i`-th value.
   */
  lemma ExpandUniform(template: string, subs: seq<Substitution>, n: nat)
    requires subs != []
    requires forall j :: 0 <= j < |subs| ==> |subs[j].values| == n
    ensures Longest(subs) == n
    ensures forall i :: 0 <= i < n ==> Slot(template, subs, i) == SubstituteAll(template, subs, i)
  {
    forall i | 0 <= i < n ensures Slot(template, subs, i) == SubstituteAll(template, subs, i) {
      SlotUsesReachingPairs(template, subs, i);
      ReachingAll(subs, i);
    }
  }

  lemma {:induction false} ReachingAll(subs: seq<Substitution>, i: nat)
    requires forall j :: 0 <= j < |subs| ==> i < |subs[j].values|
    ensures Reaching(subs, i) == subs
  {
    if subs != [] {
      ReachingAll(subs[1..], i);
    }
  }

  /** A placeholder the template does not contain is replaced nowhere. */
  lemma SlotAbsentPlaceholder(template: string, sub: Substitution, i: nat)
    requires !Contains(template, Token(sub.name))
    ensures Slot(template, [sub], i) == template
  {
  }
}

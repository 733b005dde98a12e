/**
 * The `DockerComposeFile` class: a document holding one merged value,
 * `yamlObject`, into which sources are folded left to right.
 */
module ComposeFile {
  import opened Values
  import opened Text
  import opened ArrayMerge
  import opened DeepMerge
  import opened Template

  /**
   * The collaborators the class calls and whose code is not part of this model:
   * js-yaml's `load` (None when it throws) and `dump` with sorted keys, and
   * `fs.readFileSync(path, 'utf8')` (None when it throws).
   */
  datatype Env = Env(
    load: string -> Option<Value>,
    dump: Value -> string,
    read: string -> Option<string>)

  /**
   * The modelling assumption about js-yaml: loading the trimmed dump of a value
   * gives the value back. Lemmas that need it say so in their requires clause.
   */
  ghost predicate RoundTrips(env: Env)
  {
    forall v :: env.load(Trim(env.dump(v))) == Some(v)
  }

  /** An argument of `add` or of the constructor, as JavaScript receives it. */
  datatype Argument = Instance(file: DockerComposeFile) | Str(s: string)

  /** What `add` decides an argument is. */
  datatype Source = FromDoc(file: DockerComposeFile) | FromPath(path: string) | FromText(text: string)

  /** The extension that marks a string as a file path. */
  const PathMarker: string := ".yml"

  /**
   * `instanceof DockerComposeFile` first; otherwise a string that contains
   * `.yml` anywhere is a path and every other string is YAML text.
   */
  function Dispatch(a: Argument): (src: Source)
    ensures a.Instance? <==> src.FromDoc?
    ensures src.FromDoc? ==> src.file == a.file
    ensures src.FromPath? <==> a.Str? && exists p :: MatchAt(a.s, PathMarker, p)
    ensures src.FromPath? ==> src.path == a.s
    ensures src.FromText? ==> src.text == a.s
  {
    match a
    case Instance(d) => FromDoc(d)
    case Str(s) =>
      ContainsIff(s, PathMarker);
      if Contains(s, PathMarker) then FromPath(s) else FromText(s)
  }

  /**
   * A source as `add` finds it when it reaches it: another document's value
   * (no other document changes during `add`), the document being added to
   * (whose value is then the one merged so far), a path, or YAML text.
   */
  datatype Resolved = OtherDoc(value: Value) | SameDoc | Path(path: string) | Text(text: string)

  function Resolve(self: DockerComposeFile?, a: Argument): Resolved
    reads if a.Instance? && a.file != self then {a.file} else {}
  {
    match Dispatch(a)
    case FromDoc(d) => if d == self then SameDoc else OtherDoc(d.yamlObject)
    case FromPath(p) => Path(p)
    case FromText(t) => Text(t)
  }

  /** The documents an argument list names. */
  function Docs(args: seq<Argument>): set<DockerComposeFile>
  {
    set a | a in args && a.Instance? :: a.file
  }

  function ResolveAll(self: DockerComposeFile?, args: seq<Argument>): (r: seq<Resolved>)
    reads Docs(args)
    ensures |r| == |args|
    ensures forall i :: 0 <= i < |args| ==> r[i] == Resolve(self, args[i])
  {
    if args == [] then []
    else
      assert Docs(args[1..]) <= Docs(args) by {
        forall a | a in args[1..] ensures a in args { }
      }
      [Resolve(self, args[0])] + ResolveAll(self, args[1..])
  }

  /** `yaml.load(text)`, with a parse failure reported as an error. */
  function Load(env: Env, text: string): Result<Value>
  {
    match env.load(text)
    case None => Err(ParseFailure(text))
    case Some(v) => Ok(v)
  }

  /**
   * The text a source contributes: a document's `yaml` (its dump, trimmed),
   * the trimmed contents of a file, or the text itself. `current` is the value
   * of the document being added to.
   */
  function SourceText(env: Env, current: Value, r: Resolved): Result<string>
  {
    match r
    case OtherDoc(v) => Ok(Trim(env.dump(v)))
    case SameDoc => Ok(Trim(env.dump(current)))
    case Path(p) =>
      (match env.read(p)
       case None => Err(ReadFailure(p))
       case Some(contents) => Ok(Trim(contents)))
    case Text(t) => Ok(t)
  }

  /** The parsed value a source contributes. */
  function Incoming(env: Env, current: Value, r: Resolved): Result<Value>
  {
    match SourceText(env, current, r)
    case Err(e) => Err(e)
    case Ok(text) => Load(env, text)
  }

  /** The value a string argument contributes. */
  function StringValue(env: Env, s: string): Result<Value>
  {
    Incoming(env, Undefined, Resolve(null, Str(s)))
  }

  /** The value `new DockerComposeFile(s)` holds: what the string gives, merged into nothing. */
  function DocumentValue(env: Env, s: string): (r: Result<Value>)
    ensures StringValue(env, s).Err? ==> r == StringValue(env, s)
    ensures StringValue(env, s).Ok? ==> r == Ok(Clone(StringValue(env, s).value))
  {
    match StringValue(env, s)
    case Err(e) => Err(e)
    case Ok(v) => Ok(Merge(Undefined, v))
  }

  /** The state `add` leaves: the merged value, and the error that stopped it, if any. */
  datatype Folded = Folded(value: Value, failure: Option<Error>)

  /**
   * `add` on a document whose value is `acc`: each source's value is merged
   * in, strictly left to right; the first failing source stops the fold, and
   * what was merged before it is kept.
   */
  function Fold(env: Env, acc: Value, rs: seq<Resolved>): Folded
    decreases |rs|
  {
    if rs == [] then Folded(acc, None)
    else
      match Incoming(env, acc, rs[0])
      case Err(e) => Folded(acc, Some(e))
      case Ok(v) => Fold(env, Merge(acc, v), rs[1..])
  }

  /** The values of the documents a list of strings builds, or the first error. */
  function BuildAll(env: Env, strs: seq<string>): (r: Result<seq<Value>>)
    ensures r.Ok? ==> |r.value| == |strs|
    ensures r.Ok? ==> forall i :: 0 <= i < |strs| ==> DocumentValue(env, strs[i]) == Ok(r.value[i])
    ensures r.Err? ==> exists i :: 0 <= i < |strs| && DocumentValue(env, strs[i]) == Err(r.error)
    ensures r.Ok? <==> forall i :: 0 <= i < |strs| ==> DocumentValue(env, strs[i]).Ok?
  {
    if strs == [] then Ok([])
    else
      match DocumentValue(env, strs[0])
      case Err(e) => Err(e)
      case Ok(v) =>
        var rest := BuildAll(env, strs[1..]);
        assert forall i :: 1 <= i < |strs| ==> strs[i] == strs[1..][i - 1];
        if rest.Err? then
          var j :| 0 <= j < |strs[1..]| && DocumentValue(env, strs[1..][j]) == Err(rest.error);
          assert DocumentValue(env, strs[j + 1]) == Err(rest.error);
          Err(rest.error)
        else
          var r := [v] + rest.value;
          assert forall i :: 1 <= i < |strs| ==> r[i] == rest.value[i - 1];
          Ok(r)
  }

  class DockerComposeFile {
    /** The merged value; undefined until a source is merged in. */
    var yamlObject: Value

    /** `new DockerComposeFile()` with no arguments. */
    constructor Empty()
      ensures yamlObject == Undefined
    {
      yamlObject := Undefined;
    }

    /** `new DockerComposeFile(...args)`: an empty document with `args` added, or the error `add` threw. */
    static method New(env: Env, args: seq<Argument>) returns (r: Result<DockerComposeFile>)
      ensures var f := Fold(env, Undefined, ResolveAll(null, args));
        (r.Ok? <==> f.failure.None?) &&
        (r.Ok? ==> fresh(r.value) && r.value.yamlObject == f.value) &&
        (r.Err? ==> f.failure == Some(r.error))
    {
      var d := new DockerComposeFile.Empty();
      ghost var rs := ResolveAll(null, args);
      assert ResolveAll(d, args) == rs;
      var added := d.Add(env, args);
      assert d !in Docs(args);
      assert ResolveAll(null, args) == rs;
      if added.Err? {
        r := Err(added.error);
      } else {
        r := Ok(d);
      }
    }

    /** The `yaml` getter: the dumped value with sorted keys, trimmed. */
    function Yaml(env: Env): (r: string)
      reads this
      ensures r != [] ==> !IsWhitespace(r[0]) && !IsWhitespace(r[|r| - 1])
    {
      Trim(env.dump(yamlObject))
    }

    /** The `yaml` setter of the ESM file: merges a parsed value into `yamlObject`, never overwrites it. */
    method MergeValue(v: Value)
      modifies this
      ensures yamlObject == Merge(old(yamlObject), v)
    {
      yamlObject := Merge(yamlObject, v);
    }

    /**
     * `add(...args)`. The CommonJS file returns the new `yaml`; the ESM file
     * returns nothing and merges through its setter. An error stops the loop.
     */
    method Add(env: Env, args: seq<Argument>) returns (r: Result<string>)
      modifies this
      ensures var f := Fold(env, old(yamlObject), old(ResolveAll(this, args)));
        yamlObject == f.value &&
        (r.Err? <==> f.failure.Some?) &&
        (r.Err? ==> Some(r.error) == f.failure) &&
        (r.Ok? ==> r.value == Yaml(env))
    {
      ghost var rs := ResolveAll(this, args);
      var i := 0;
      while i < |args|
        invariant 0 <= i <= |args|
        invariant Fold(env, yamlObject, rs[i..]) == Fold(env, old(yamlObject), rs)
      {
        FoldFirst(env, yamlObject, rs, i);
        assert rs[i] == old(Resolve(this, args[i]));
        if args[i].Instance? && args[i].file != this {
          assert args[i].file.yamlObject == old(args[i].file.yamlObject);
        }
        assert rs[i] == Resolve(this, args[i]);
        var incoming := Contribution(env, args[i]);
        if incoming.Err? {
          return Err(incoming.error);
        }
        MergeValue(incoming.value);
        i := i + 1;
      }
      r := Ok(Yaml(env));
    }

    /** What one argument of `add` contributes, read while this document holds its current value. */
    method Contribution(env: Env, a: Argument) returns (r: Result<Value>)
      ensures r == Incoming(env, yamlObject, Resolve(this, a))
    {
      var text: Result<string>;
      match Dispatch(a) {
        case FromDoc(d) =>
          text := Ok(d.Yaml(env));
        case FromPath(p) =>
          var contents := env.read(p);
          text := if contents.None? then Err(ReadFailure(p)) else Ok(Trim(contents.value));
        case FromText(t) =>
          text := Ok(t);
      }
      if text.Err? {
        r := Err(text.error);
      } else {
        r := Load(env, text.value);
      }
    }

    /** The `yaml` setter of the CommonJS file: `add` with one argument. */
    method AssignYaml(env: Env, a: Argument) returns (r: Result<string>)
      modifies this
      ensures var f := Fold(env, old(yamlObject), [old(Resolve(this, a))]);
        yamlObject == f.value &&
        (r.Err? <==> f.failure.Some?) &&
        (r.Err? ==> Some(r.error) == f.failure) &&
        (r.Ok? ==> r.value == Yaml(env))
    {
      r := Add(env, [a]);
    }

    /**
     * `mapTemplate(...substitutions)`: expands this document's `yaml` and wraps
     * each text as a new document, which dispatches it like any string
     * argument. This document is not changed.
     */
    method MapTemplate(env: Env, substitutions: seq<Substitution>) returns (r: Result<seq<DockerComposeFile>>)
      ensures var built := BuildAll(env, Expansions(Yaml(env), substitutions));
        (r.Ok? <==> built.Ok?) &&
        (r.Err? ==> r.error == built.error) &&
        (r.Ok? ==> |r.value| == Longest(substitutions)) &&
        (r.Ok? ==> forall i :: 0 <= i < |r.value| ==> fresh(r.value[i]) && r.value[i].yamlObject == built.value[i])
    {
      var files := ExpandTemplate(Yaml(env), substitutions);
      assert files == Expansions(Yaml(env), substitutions);
      r := WrapAll(env, files);
    }

    /** `composeFiles.map((file) => new DockerComposeFile(file))`. */
    static method WrapAll(env: Env, files: seq<string>) returns (r: Result<seq<DockerComposeFile>>)
      ensures var built := BuildAll(env, files);
        (r.Ok? <==> built.Ok?) &&
        (r.Err? ==> r.error == built.error) &&
        (r.Ok? ==> |r.value| == |files|) &&
        (r.Ok? ==> forall i :: 0 <= i < |r.value| ==> fresh(r.value[i]) && r.value[i].yamlObject == built.value[i])
    {
      var docs: seq<DockerComposeFile> := [];
      var k := 0;
      while k < |files|
        invariant 0 <= k <= |files| && |docs| == k
        invariant forall i :: 0 <= i < k ==> fresh(docs[i]) && DocumentValue(env, files[i]) == Ok(docs[i].yamlObject)
      {
        var made := FromString(env, files[k]);
        if made.Err? {
          BuildAllStops(env, files, k);
          return Err(made.error);
        }
        docs := docs + [made.value];
        k := k + 1;
      }
      r := Ok(docs);
    }

    /** `new DockerComposeFile(file)` for one string. */
    static method FromString(env: Env, s: string) returns (r: Result<DockerComposeFile>)
      ensures r.Ok? <==> DocumentValue(env, s).Ok?
      ensures r.Ok? ==> fresh(r.value) && DocumentValue(env, s) == Ok(r.value.yamlObject)
      ensures r.Err? ==> DocumentValue(env, s) == Err(r.error)
    {
      r := New(env, [Str(s)]);
      NewFromString(env, s);
    }
  }

  /** A document built from one string holds exactly what that string gives, or fails as it does. */
  lemma NewFromString(env: Env, s: string)
    ensures var f := Fold(env, Undefined, ResolveAll(null, [Str(s)]));
      (f.failure.None? <==> DocumentValue(env, s).Ok?) &&
      (f.failure.None? ==> Ok(f.value) == DocumentValue(env, s)) &&
      (f.failure.Some? ==> f.failure == Some(DocumentValue(env, s).error))
  {
  }

  /** A source other than the document itself contributes the same value whatever was merged so far. */
  lemma IncomingIgnoresCurrent(env: Env, current: Value, r: Resolved)
    requires !r.SameDoc?
    ensures Incoming(env, current, r) == Incoming(env, Undefined, r)
  {
  }

  /**
   * `add(...a, ...b)` is `add(...a)` followed by `add(...b)`, unless a source
   * of `a` fails; `add()` with no sources changes nothing.
   */
  lemma {:induction false} FoldAppend(env: Env, acc: Value, a: seq<Resolved>, b: seq<Resolved>)
    ensures Fold(env, acc, []) == Folded(acc, None)
    ensures var fa := Fold(env, acc, a);
      Fold(env, acc, a + b) == if fa.failure.Some? then fa else Fold(env, fa.value, b)
    decreases |a|
  {
    if a != [] {
      assert (a + b)[1..] == a[1..] + b;
      match Incoming(env, acc, a[0])
      case Err(_) =>
      case Ok(v) => FoldAppend(env, Merge(acc, v), a[1..], b);
    } else {
      assert a + b == b;
    }
  }

  /** A document built from one source holds that source's value, cloned: every list in it loses its repeated scalars. */
  lemma NewFromOneSource(env: Env, r: Resolved)
    requires !r.SameDoc?
    ensures Incoming(env, Undefined, r).Ok? ==>
      Fold(env, Undefined, [r]) == Folded(Clone(Incoming(env, Undefined, r).value), None)
    ensures Incoming(env, Undefined, r).Err? ==>
      Fold(env, Undefined, [r]).failure == Some(Incoming(env, Undefined, r).error)
  {
  }

  /**
   * Given the round-trip assumption, documents built one per source (each holding
   * its source's value, cloned) and then merged give the same value as merging
   * the sources themselves.
   */
  lemma {:induction false} DocumentsStandForSources(env: Env, acc: Value, docs: seq<Resolved>, sources: seq<Resolved>)
    requires RoundTrips(env)
    requires |docs| == |sources|
    requires forall i :: 0 <= i < |docs| ==>
      !sources[i].SameDoc? && docs[i].OtherDoc? && Incoming(env, Undefined, sources[i]).Ok? &&
      docs[i].value == Clone(Incoming(env, Undefined, sources[i]).value)
    ensures Fold(env, acc, docs) == Fold(env, acc, sources)
    decreases |docs|
  {
    if docs != [] {
      var c := docs[0].value;
      var v := Incoming(env, Undefined, sources[0]).value;
      assert env.load(Trim(env.dump(c))) == Some(c);
      assert Incoming(env, acc, docs[0]) == Ok(c);
      IncomingIgnoresCurrent(env, acc, sources[0]);
      MergeUpToClone(acc, v);
      DocumentsStandForSources(env, Merge(acc, v), docs[1..], sources[1..]);
    }
  }

  /**
   * Given the round-trip assumption, adding a document to itself leaves its
   * value unchanged when its lists are duplicate-free scalar lists.
   */
  lemma AddItself(env: Env, acc: Value)
    requires RoundTrips(env)
    requires Flat(acc)
    ensures Fold(env, acc, [SameDoc]) == Folded(acc, None)
  {
    assert env.load(Trim(env.dump(acc))) == Some(acc);
    MergeSelf(acc);
  }

  /** Adding the same source twice is adding it once, when its lists are duplicate-free scalar lists. */
  lemma AddTwice(env: Env, acc: Value, r: Resolved)
    requires !r.SameDoc?
    requires Incoming(env, Undefined, r).Ok? && Flat(Incoming(env, Undefined, r).value)
    ensures Fold(env, acc, [r, r]) == Fold(env, acc, [r])
  {
    var v := Incoming(env, Undefined, r).value;
    IncomingIgnoresCurrent(env, acc, r);
    IncomingIgnoresCurrent(env, Merge(acc, v), r);
    MergeIdempotent(acc, v);
    assert [r, r][1..] == [r];
  }

  /** Two sources that are mappings with no key in common can be added in either order. */
  lemma AddDisjointInEitherOrder(env: Env, acc: Value, a: Resolved, b: Resolved)
    requires !a.SameDoc? && !b.SameDoc?
    requires Incoming(env, Undefined, a).Ok? && Incoming(env, Undefined, b).Ok?
    requires Incoming(env, Undefined, a).value.Mapping? && Incoming(env, Undefined, b).value.Mapping?
    requires Incoming(env, Undefined, a).value.entries.Keys !! Incoming(env, Undefined, b).value.entries.Keys
    ensures Fold(env, acc, [a, b]) == Fold(env, acc, [b, a])
  {
    var va, vb := Incoming(env, Undefined, a).value, Incoming(env, Undefined, b).value;
    IncomingIgnoresCurrent(env, acc, a);
    IncomingIgnoresCurrent(env, acc, b);
    IncomingIgnoresCurrent(env, Merge(acc, va), b);
    IncomingIgnoresCurrent(env, Merge(acc, vb), a);
    MergeDisjointCommutes(acc, va, vb);
    assert [a, b][1..] == [b];
    assert [b, a][1..] == [a];
  }

  /**
   * A document whose lists repeat no scalar keeps that property through `add`,
   * whatever the sources: every merge result is free of repeated scalars.
   */
  lemma {:induction false} FoldKeepsDeduped(env: Env, acc: Value, rs: seq<Resolved>)
    requires Deduped(acc)
    ensures Deduped(Fold(env, acc, rs).value)
    decreases |rs|
  {
    if rs != [] {
      match Incoming(env, acc, rs[0])
      case Err(_) =>
      case Ok(v) =>
        MergeDeduped(acc, v);
        FoldKeepsDeduped(env, Merge(acc, v), rs[1..]);
    }
  }

  /** A path whose file holds `text` (once trimmed) and the inline `text` itself give the same value. */
  lemma PathMatchesInlineText(env: Env, path: string, contents: string)
    requires env.read(path) == Some(contents)
    requires Contains(path, PathMarker) && !Contains(Trim(contents), PathMarker)
    ensures StringValue(env, path) == StringValue(env, Trim(contents))
  {
  }

  /** One step of the fold, from position `i`. */
  lemma FoldFirst(env: Env, acc: Value, rs: seq<Resolved>, i: nat)
    requires i < |rs|
    ensures Incoming(env, acc, rs[i]).Err? ==>
      Fold(env, acc, rs[i..]) == Folded(acc, Some(Incoming(env, acc, rs[i]).error))
    ensures Incoming(env, acc, rs[i]).Ok? ==>
      Fold(env, acc, rs[i..]) == Fold(env, Merge(acc, Incoming(env, acc, rs[i]).value), rs[i + 1..])
  {
  }

  lemma {:induction false} BuildAllStops(env: Env, strs: seq<string>, k: nat)
    requires k < |strs|
    requires forall i :: 0 <= i < k ==> DocumentValue(env, strs[i]).Ok?
    requires DocumentValue(env, strs[k]).Err?
    ensures BuildAll(env, strs).Err? && BuildAll(env, strs).error == DocumentValue(env, strs[k]).error
  {
    if k > 0 {
      BuildAllStops(env, strs[1..], k - 1);
    }
  }
}

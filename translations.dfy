/** Localised texts. Each namespace (one per scale, plus the global one) has
    an ordered list of source directories; a language is built by merging
    the YAML file of that language from every source, in registration order,
    and is cached until another source is added. Lookups fall back to a
    fallback language. */
module Translations {
  import opened Wrappers
  import opened Text

  /** A loaded YAML value: text, a nested mapping, or any other scalar. */
  datatype Value = Text(s: string) | Dict(entries: map<string, Value>) | Scalar(repr: string)

  type Tree = map<string, Value>

  // ---------------------------------------------------------------- merge

  /** What `merge(base, src)` leaves in `base`: keys only in `base` keep their
      value; where both sides hold a mapping the two are merged; otherwise
      the value from `src` replaces the one in `base`. */
  function Merged(base: Tree, src: Tree): (r: Tree)
    decreases Dict(src)
    ensures r.Keys == base.Keys + src.Keys
  {
    map k | k in base.Keys + src.Keys ::
      if k in src then MergedAt(base, src, k) else base[k]
  }

  function MergedAt(base: Tree, src: Tree, k: string): Value
    requires k in src
    decreases Dict(src), 0
  {
    if k in base && src[k].Dict? && base[k].Dict? then Dict(Merged(base[k].entries, src[k].entries))
    else src[k]
  }

  /** The part of `src` already merged while `todo` remains. */
  function Done(src: Tree, todo: set<string>): Tree {
    map k | k in src && k !in todo :: src[k]
  }

  /** `merge`: walks the keys of `src` (in whatever order the mapping yields
      them) and writes each into the result, recursing where both sides hold
      a mapping. */
  method Merge(base: Tree, src: Tree) returns (merged: Tree)
    ensures merged == Merged(base, src)
    decreases Dict(src)
  {
    merged := base;
    var todo := src.Keys;
    assert Done(src, todo) == map[];
    MergeIdentities(base);
    while todo != {}
      invariant todo <= src.Keys
      invariant merged == Merged(base, Done(src, todo))
      decreases todo
    {
      var k :| k in todo;
      var v := src[k];
      MergeStep(base, src, todo, k);
      if k in merged && v.Dict? && merged[k].Dict? {
        var sub := Merge(merged[k].entries, v.entries);
        merged := merged[k := Dict(sub)];
      } else {
        merged := merged[k := v];
      }
      todo := todo - {k};
    }
    assert Done(src, {}) == src;
  }

  /** One step of the walk: merging one more key of the source updates only
      that key, from the base's value. */
  lemma MergeStep(base: Tree, src: Tree, todo: set<string>, k: string)
    requires todo <= src.Keys && k in todo
    ensures var before := Merged(base, Done(src, todo));
      && (k in before <==> k in base)
      && (k in before ==> before[k] == base[k])
      && Merged(base, Done(src, todo - {k})) == before[k := MergedAt(base, src, k)]
  {
    var d0, d1 := Done(src, todo), Done(src, todo - {k});
    assert k !in d0 && k in d1 && d1[k] == src[k];
    var m0, m1 := Merged(base, d0), Merged(base, d1);
    forall j | j in m1
      ensures m1[j] == m0[k := MergedAt(base, src, k)][j]
    {
      if j == k {
        assert m1[j] == MergedAt(base, d1, k);
      } else if j in d1 {
        assert j in d0 && d0[j] == d1[j];
        assert m1[j] == MergedAt(base, d1, j);
        assert m0[j] == MergedAt(base, d0, j);
      } else {
        assert j !in d0;
        assert m1[j] == base[j] == m0[j];
      }
    }
    assert m1.Keys == m0[k := MergedAt(base, src, k)].Keys;
  }

  /** Merging nothing changes nothing, and merging into nothing copies. */
  lemma MergeIdentities(t: Tree)
    ensures Merged(t, map[]) == t
    ensures Merged(map[], t) == t
  {
  }

  /** A mapping merged into itself is itself. */
  lemma {:induction false} MergeSelf(t: Tree)
    ensures Merged(t, t) == t
    decreases Dict(t)
  {
    forall k | k in t
      ensures Merged(t, t)[k] == t[k]
    {
      if t[k].Dict? {
        MergeSelf(t[k].entries);
      }
    }
  }

  /** Merging the same source twice is merging it once. */
  lemma {:induction false} MergeIdempotent(base: Tree, src: Tree)
    ensures Merged(Merged(base, src), src) == Merged(base, src)
    decreases Dict(src)
  {
    var once := Merged(base, src);
    forall k | k in once
      ensures Merged(once, src)[k] == once[k]
    {
      if k in src {
        if k in base && src[k].Dict? && base[k].Dict? {
          MergeIdempotent(base[k].entries, src[k].entries);
          assert once[k] == Dict(Merged(base[k].entries, src[k].entries));
          assert Merged(once, src)[k] == MergedAt(once, src, k);
        } else {
          assert once[k] == src[k];
          if src[k].Dict? {
            MergeSelf(src[k].entries);
            assert Merged(once, src)[k] == MergedAt(once, src, k);
          }
        }
      }
    }
  }

  /** The value reached by following `path` through nested mappings. */
  function Get(t: Tree, path: seq<string>): Option<Value>
    requires |path| > 0
    decreases |path|
  {
    if path[0] !in t then None
    else if |path| == 1 then Some(t[path[0]])
    else if t[path[0]].Dict? then Get(t[path[0]].entries, path[1..])
    else None
  }

  /** The source wins: any text or scalar the source holds at a path is what
      the merged mapping holds there. */
  lemma {:induction false} SourceLeafWins(base: Tree, src: Tree, path: seq<string>)
    requires |path| > 0
    requires Get(src, path).Some? && !Get(src, path).value.Dict?
    ensures Get(Merged(base, src), path) == Get(src, path)
    decreases |path|
  {
    var k := path[0];
    if |path| > 1 && k in base && base[k].Dict? {
      SourceLeafWins(base[k].entries, src[k].entries, path[1..]);
    } else if |path| > 1 {
      assert Merged(base, src)[k] == src[k];
    }
  }

  /** Nothing is lost: a path the base holds is still present after merging,
      unless the source puts a non-mapping value on the way to it. */
  lemma {:induction false} BasePathKept(base: Tree, src: Tree, path: seq<string>)
    requires |path| > 0
    requires Get(base, path).Some?
    requires forall i :: 1 <= i < |path| ==> Get(src, path[..i]).None? || Get(src, path[..i]).value.Dict?
    ensures Get(Merged(base, src), path).Some?
    decreases |path|
  {
    var k := path[0];
    if |path| > 1 && k in src {
      assert path[..1] == [k];
      assert src[k].Dict?;
      forall i | 1 <= i < |path| - 1
        ensures Get(src[k].entries, path[1..][..i]).None? || Get(src[k].entries, path[1..][..i]).value.Dict?
      {
        assert path[..i + 1][1..] == path[1..][..i];
      }
      BasePathKept(base[k].entries, src[k].entries, path[1..]);
    }
  }

  // ------------------------------------------------------ TranslationDict

  /** A nested mapping of translations together with the mapping at the same
      place in the fallback language (which may, wrongly, be no mapping). */
  datatype TranslationDict = TranslationDict(entries: Tree, fallback: Value)

  /** What attribute access yields: a format string, a nested translation
      dictionary, or any other value as it is. */
  datatype Attribute = FormatText(s: string) | SubDict(d: TranslationDict) | Plain(v: Value)

  datatype TranslationError =
    | Unsupported(language: string)
    | FallbackMissing(key: string)
    | KeyMissing(key: string)
    | NotText(key: string)

  /** The attribute for a value found under `item`, with the fallback's value
      under the same key. */
  function Wrap(v: Value, fallbackValue: Value): Attribute {
    match v
    case Text(s) => FormatText(s)
    case Dict(m) => SubDict(TranslationDict(m, fallbackValue))
    case Scalar(_) => Plain(v)
  }

  /** `TranslationDict.__getattr__`: the fallback's entry is looked up first
      and unconditionally, so a key the fallback lacks fails even when this
      dictionary has it. */
  function GetAttr(td: TranslationDict, item: string): (r: Result<Attribute, TranslationError>)
    ensures r.Ok? <==> td.fallback.Dict? && item in td.fallback.entries
    ensures r.Ok? && item in td.entries ==> r.value == Wrap(td.entries[item], td.fallback.entries[item])
    ensures r.Ok? && item !in td.entries ==> r.value == Wrap(td.fallback.entries[item], td.fallback.entries[item])
  {
    if td.fallback.Dict? && item in td.fallback.entries then
      var fb := td.fallback.entries[item];
      Ok(Wrap(if item in td.entries then td.entries[item] else fb, fb))
    else Err(FallbackMissing(item))
  }

  /** `kwargs.get("cnt", kwargs.get("count", None))`, where `None` also stands
      for a value that is not an integer. */
  function PluralCount(kwargs: map<string, Option<int>>): Option<int> {
    if "cnt" in kwargs then kwargs["cnt"]
    else if "count" in kwargs then kwargs["count"]
    else None
  }

  /** The plural form chosen for a count. */
  function PluralKey(cnt: Option<int>, hasZero: bool): (key: string)
    ensures key == "one" <==> cnt == Some(1)
    ensures key == "zero" <==> cnt == Some(0) && hasZero
    ensures key == "many" <==> !(cnt == Some(1) || (cnt == Some(0) && hasZero))
  {
    if cnt == Some(1) then "one"
    else if cnt == Some(0) && hasZero then "zero"
    else "many"
  }

  /** `TranslationDict.__call__`: the chosen plural form's text, before
      formatting. */
  function Call(td: TranslationDict, kwargs: map<string, Option<int>>): (r: Result<string, TranslationError>)
    ensures var key := PluralKey(PluralCount(kwargs), "zero" in td.entries);
      r.Ok? <==> GetAttr(td, key).Ok? && GetAttr(td, key).value.FormatText?
    ensures var key := PluralKey(PluralCount(kwargs), "zero" in td.entries);
      r.Ok? ==> GetAttr(td, key) == Ok(FormatText(r.value))
  {
    var key := PluralKey(PluralCount(kwargs), "zero" in td.entries);
    match GetAttr(td, key)
    case Ok(FormatText(s)) => Ok(s)
    case Ok(_) => Err(NotText(key))
    case Err(e) => Err(e)
  }

  /** `cnt` is consulted before `count`. */
  lemma CntBeforeCount(td: TranslationDict, kwargs: map<string, Option<int>>)
    requires "cnt" in kwargs && "count" in kwargs
    ensures Call(td, kwargs) == Call(td, kwargs - {"count"})
  {
  }

  /** A count of zero uses `many` when there is no `zero` form. */
  lemma ZeroWithoutZeroForm(td: TranslationDict)
    requires "zero" !in td.entries
    ensures Call(td, map["cnt" := Some(0)]) == Call(td, map[])
  {
  }

  // --------------------------------------------------- TranslationNamespace

  /** A source directory. */
  type Source = string

  /** `Config.LANGUAGE_AVAILABLE`, `LANGUAGE_DEFAULT`, `LANGUAGE_FALLBACK`. */
  datatype LanguageConfig = LanguageConfig(available: set<string>, default: string, fallback: string)

  /** The language files on disk: for a source and a lower-case language
      name, the parsed `<language>.yml` when the file exists (an empty file
      reads as an empty mapping). */
  type Files = map<(Source, string), Tree>

  /** A language built from `sources` in order. */
  function Build(files: Files, sources: seq<Source>, lan: string): Tree {
    if |sources| == 0 then map[]
    else
      var prev := Build(files, sources[..|sources| - 1], lan);
      var key := (sources[|sources| - 1], LowerStr(lan));
      if key in files then Merged(prev, files[key]) else prev
  }

  /** Later sources override earlier ones: a text or scalar in the last
      source that has the language file is what the language holds. */
  lemma LastSourceWins(files: Files, sources: seq<Source>, s: Source, lan: string, path: seq<string>)
    requires |path| > 0
    requires (s, LowerStr(lan)) in files
    requires Get(files[(s, LowerStr(lan))], path).Some? && !Get(files[(s, LowerStr(lan))], path).value.Dict?
    ensures Get(Build(files, sources + [s], lan), path) == Get(files[(s, LowerStr(lan))], path)
  {
    assert (sources + [s])[..|sources|] == sources;
    SourceLeafWins(Build(files, sources, lan), files[(s, LowerStr(lan))], path);
  }

  /** Every top-level key of every existing file of the language is present
      in the built language. */
  lemma {:induction false} BuildHasAllKeys(files: Files, sources: seq<Source>, lan: string, i: int, k: string)
    requires 0 <= i < |sources|
    requires (sources[i], LowerStr(lan)) in files && k in files[(sources[i], LowerStr(lan))]
    ensures k in Build(files, sources, lan)
  {
    if i < |sources| - 1 {
      BuildHasAllKeys(files, sources[..|sources| - 1], lan, i, k);
    }
  }

  /** `tn_get_translation` as a function of the sources: the current language
      (or the default one when none is set) unless it lacks the key, then the
      fallback language. */
  function Translation(files: Files, sources: seq<Source>, config: LanguageConfig,
                       current: Option<string>, key: string): Result<Value, TranslationError>
  {
    var lan := if current.Some? && current.value != "" then current.value else config.default;
    if lan !in config.available then Err(Unsupported(lan))
    else
      var t := Build(files, sources, lan);
      if key in t then Ok(t[key])
      else if config.fallback !in config.available then Err(Unsupported(config.fallback))
      else
        var f := Build(files, sources, config.fallback);
        if key in f then Ok(f[key]) else Err(KeyMissing(key))
  }

  /** The fallback language is consulted only when the language in use lacks
      the key. */
  lemma FallbackOnlyWhenMissing(files: Files, sources: seq<Source>, config: LanguageConfig,
                                current: Option<string>, key: string)
    ensures var lan := if current.Some? && current.value != "" then current.value else config.default;
      lan in config.available && key in Build(files, sources, lan) ==>
        Translation(files, sources, config, current, key) == Ok(Build(files, sources, lan)[key])
    ensures var lan := if current.Some? && current.value != "" then current.value else config.default;
      lan in config.available && key !in Build(files, sources, lan) && config.fallback in config.available ==>
        (Translation(files, sources, config, current, key).Ok? <==> key in Build(files, sources, config.fallback))
  {
  }

  class Namespace {
    const files: Files
    const config: LanguageConfig
    var sources: seq<Source>
    /** Languages built so far. */
    var cache: map<string, Tree>

    /** Every cached language is what the current sources build. */
    ghost predicate Valid()
      reads this
    {
      forall lan :: lan in cache ==> cache[lan] == Build(files, sources, lan)
    }

    constructor (files: Files, config: LanguageConfig)
      ensures Valid()
      ensures this.files == files && this.config == config
      ensures sources == [] && cache == map[]
    {
      this.files := files;
      this.config := config;
      sources := [];
      cache := map[];
    }

    /** `tn_add_source`: appends the source and drops every built language. */
    method AddSource(source: Source)
      modifies this
      ensures Valid()
      ensures sources == old(sources) + [source] && cache == map[]
    {
      sources := sources + [source];
      cache := map[];
    }

    /** `tn_get_language`: an unavailable language is refused; otherwise the
      language is built from the sources, in order, unless it is cached. */
    method GetLanguage(lan: string) returns (r: Result<Tree, TranslationError>)
      requires Valid()
      modifies this
      ensures Valid() && sources == old(sources)
      ensures lan !in config.available ==> r == Err(Unsupported(lan)) && cache == old(cache)
      ensures lan in config.available ==>
        r == Ok(Build(files, sources, lan)) && cache == old(cache)[lan := Build(files, sources, lan)]
    {
      if lan !in config.available {
        return Err(Unsupported(lan));
      }
      if lan !in cache {
        var built: Tree := map[];
        var i := 0;
        while i < |sources|
          invariant 0 <= i <= |sources|
          invariant built == Build(files, sources[..i], lan)
          invariant sources == old(sources) && cache == old(cache)
        {
          assert sources[..i + 1][..i] == sources[..i];
          var key := (sources[i], LowerStr(lan));
          if key in files {
            built := Merge(built, files[key]);
          }
          i := i + 1;
        }
        assert sources[..|sources|] == sources;
        cache := cache[lan := built];
      }
      r := Ok(cache[lan]);
    }

    /** `tn_get_translation`. `current` is the language of the context the
      bot runs in, if any. */
    method GetTranslation(key: string, current: Option<string>) returns (r: Result<Value, TranslationError>)
      requires Valid()
      modifies this
      ensures Valid() && sources == old(sources)
      ensures r == Translation(files, sources, config, current, key)
    {
      var lan := if current.Some? && current.value != "" then current.value else config.default;
      var t := GetLanguage(lan);
      if t.Err? {
        return Err(t.error);
      }
      if key !in t.value {
        t := GetLanguage(config.fallback);
        if t.Err? {
          return Err(t.error);
        }
      }
      if key !in t.value {
        return Err(KeyMissing(key));
      }
      r := Ok(t.value[key]);
    }

    /** `TranslationNamespace.__getattr__`: a nested mapping is paired with
      the fallback language's entry under the same key, which must exist. */
    method Attr(item: string, current: Option<string>) returns (r: Result<Attribute, TranslationError>)
      requires Valid()
      modifies this
      ensures Valid() && sources == old(sources)
      ensures Translation(files, sources, config, current, item).Err? ==>
        r == Err(Translation(files, sources, config, current, item).error)
      ensures Translation(files, sources, config, current, item).Ok? ==>
        var v := Translation(files, sources, config, current, item).value;
        var f := Build(files, sources, config.fallback);
        if !v.Dict? then r == Ok(Wrap(v, v))
        else if config.fallback !in config.available then r == Err(Unsupported(config.fallback))
        else if item !in f then r == Err(FallbackMissing(item))
        else r == Ok(SubDict(TranslationDict(v.entries, f[item])))
    {
      var t := GetTranslation(item, current);
      if t.Err? {
        return Err(t.error);
      }
      var v := t.value;
      if !v.Dict? {
        return Ok(Wrap(v, v));
      }
      var f := GetLanguage(config.fallback);
      if f.Err? {
        return Err(f.error);
      }
      if item !in f.value {
        return Err(FallbackMissing(item));
      }
      r := Ok(SubDict(TranslationDict(v.entries, f.value[item])));
    }
  }

  /** `Translations`: the namespaces by name. */
  class Registry {
    const files: Files
    const config: LanguageConfig
    var namespaces: map<string, Namespace>

    ghost predicate Valid()
      reads this, namespaces.Values
    {
      && (forall a, b :: a in namespaces && b in namespaces && a != b ==> namespaces[a] != namespaces[b])
      && (forall n :: n in namespaces ==>
            namespaces[n].Valid() && namespaces[n].files == files && namespaces[n].config == config)
    }

    constructor (files: Files, config: LanguageConfig)
      ensures Valid() && this.files == files && this.config == config && namespaces == map[]
    {
      this.files := files;
      this.config := config;
      namespaces := map[];
    }

    /** `register_translation_namespace`: creates the namespace on first use,
        then adds the source to it. */
    method Register(name: string, source: Source)
      requires Valid()
      modifies this, if name in namespaces then {namespaces[name]} else {}
      ensures Valid()
      ensures namespaces.Keys == old(namespaces.Keys) + {name}
      ensures name in old(namespaces) ==> namespaces[name] == old(namespaces[name])
      ensures namespaces[name].sources ==
        (if name in old(namespaces) then old(namespaces[name].sources) else []) + [source]
      ensures forall n :: n in old(namespaces) && n != name ==>
        namespaces[n] == old(namespaces[n]) && namespaces[n].sources == old(namespaces[n].sources)
    {
      if name !in namespaces {
        var ns := new Namespace(files, config);
        namespaces := namespaces[name := ns];
      }
      namespaces[name].AddSource(source);
    }
  }
}

/** Contributors are enumeration members whose value is a pair
    (Discord ID, (GitHub ID, GitHub node ID)). Any part may be replaced by a
    "falsy marker" such as `0`, `None` or `"/"`, which the accessors turn into
    `None`. */
module Contributor {
  import opened Wrappers
  import opened Text

  /** The Python values a contributor entry is written with. */
  datatype PyValue =
    | PyInt(i: int)
    | PyStr(s: string)
    | PyBool(b: bool)
    | PyNone
    | PyTuple(items: seq<PyValue>)
    | PyList(items: seq<PyValue>)

  /** The text forms that mark an absent ID. */
  const FalseData: set<string> :=
    {"0", "-1", "none", "nan", "false", "/", "()", "[]", "{}", "set()"}

  /** `str(v)`. */
  function Str(v: PyValue): string
    decreases v, 1
  {
    match v
    case PyInt(i) => Show(i)
    case PyStr(s) => s
    case PyBool(b) => if b then "True" else "False"
    case PyNone => "None"
    case PyTuple(items) =>
      "(" + ReprJoin(items) + (if |items| == 1 then "," else "") + ")"
    case PyList(items) => "[" + ReprJoin(items) + "]"
  }

  /** `repr(v)`: strings are quoted (escape sequences are not modelled). */
  function Repr(v: PyValue): string
    decreases v, 2
  {
    if v.PyStr? then "'" + v.s + "'" else Str(v)
  }

  /** The items of a tuple, each as `repr`, separated by `", "`. */
  function ReprJoin(items: seq<PyValue>): string
    decreases items
  {
    if |items| == 0 then ""
    else if |items| == 1 then Repr(items[0])
    else Repr(items[0]) + ", " + ReprJoin(items[1..])
  }

  /** Python truthiness. */
  predicate Truthy(v: PyValue) {
    match v
    case PyInt(i) => i != 0
    case PyStr(s) => s != ""
    case PyBool(b) => b
    case PyNone => false
    case PyTuple(items) => items != []
    case PyList(items) => items != []
  }

  /** `str(v).lower() in _FALSE_DATA`: the test applied to a whole field. */
  predicate IsFalseMarker(v: PyValue) {
    LowerStr(Str(v)) in FalseData
  }

  datatype ContributorEntry = ContributorEntry(name: string, discord: PyValue, github: PyValue)

  /** `discord_id`: the first field, unless it is a falsy marker. */
  function DiscordId(c: ContributorEntry): (r: Option<PyValue>)
    ensures r.None? <==> IsFalseMarker(c.discord)
    ensures r.Some? ==> r.value == c.discord
  {
    if IsFalseMarker(c.discord) then None else Some(c.discord)
  }

  /** `discord_mention`: `<@id>` when the Discord ID is truthy. */
  function DiscordMention(c: ContributorEntry): (r: Option<string>)
    ensures r.Some? <==> DiscordId(c).Some? && Truthy(c.discord)
    ensures r.Some? ==> r.value == "<@" + Str(c.discord) + ">"
  {
    var id := DiscordId(c);
    if id.Some? && Truthy(id.value) then Some("<@" + Str(id.value) + ">") else None
  }

  /** `tuple(map(str, v))`: the text of each element of an iterable value;
      `None` where Python raises `TypeError` (the value is not iterable). */
  function Elements(v: PyValue): (r: Option<seq<string>>)
    ensures v.PyStr? ==> r == Some(seq(|v.s|, i requires 0 <= i < |v.s| => [v.s[i]]))
  {
    match v
    case PyStr(s) => Some(seq(|s|, i requires 0 <= i < |s| => [s[i]]))
    case PyTuple(items) => Some(seq(|items|, i requires 0 <= i < |items| => Str(items[i])))
    case PyList(items) => Some(seq(|items|, i requires 0 <= i < |items| => Str(items[i])))
    case _ => None
  }

  datatype GithubError = NotIterable | WrongArity

  datatype GithubIds = GithubIds(id: Option<int>, nodeId: Option<string>)

  /** `github`: `(None, None)` for a falsy marker; otherwise the second field
      must hold exactly two elements, and each element is checked against the
      markers exactly as written (no case folding). */
  function Github(c: ContributorEntry): (r: Result<GithubIds, GithubError>)
    ensures IsFalseMarker(c.github) ==> r == Ok(GithubIds(None, None))
    ensures r.Err? <==>
      !IsFalseMarker(c.github) && (Elements(c.github).None? || |Elements(c.github).value| != 2)
    ensures r.Ok? && !IsFalseMarker(c.github) ==>
      var e := Elements(c.github).value;
      && (r.value.id.Some? <==> e[0] !in FalseData && IsNumeric(e[0]))
      && (r.value.id.Some? ==> r.value.id.value == ParseDigits(e[0]) as int)
      && r.value.nodeId == (if e[1] in FalseData then None else Some(e[1]))
  {
    if IsFalseMarker(c.github) then Ok(GithubIds(None, None))
    else match Elements(c.github)
      case None => Err(NotIterable)
      case Some(e) =>
        if |e| != 2 then Err(WrongArity)
        else
          var id := if e[0] !in FalseData && IsNumeric(e[0]) then Some(ParseDigits(e[0]) as int) else None;
          var node := if e[1] !in FalseData then Some(e[1]) else None;
          Ok(GithubIds(id, node))
  }

  /** `github_id`: the first component of `github`. */
  function GithubId(c: ContributorEntry): (r: Result<Option<int>, GithubError>)
    ensures r.Ok? <==> Github(c).Ok?
    ensures r.Ok? ==> r.value == Github(c).value.id
  {
    match Github(c)
    case Ok(g) => Ok(g.id)
    case Err(e) => Err(e)
  }

  /** `github_node_id`: the second component of `github`. */
  function GithubNodeId(c: ContributorEntry): (r: Result<Option<string>, GithubError>)
    ensures r.Ok? <==> Github(c).Ok?
    ensures r.Ok? ==> r.value == Github(c).value.nodeId
  {
    match Github(c)
    case Ok(g) => Ok(g.nodeId)
    case Err(e) => Err(e)
  }

  /** The text of a positive integer is never a falsy marker. */
  lemma PositiveIsNotMarker(n: int)
    requires n > 0
    ensures LowerStr(Show(n)) == Show(n)
    ensures Show(n) !in FalseData
  {
    var s := ShowNat(n);
    assert Show(n) == s;
    ParseShowNat(n);
    assert ParseDigits("0") == 0;
    assert s != "-1" && s != "/" by { assert IsDigit(s[0]); }
    assert s !in {"none", "nan", "false", "()", "[]", "{}", "set()"} by { assert IsDigit(s[0]); }
  }

  /** A contributor written with a positive integer Discord ID keeps it and
      is mentioned as `<@id>`. */
  lemma PositiveDiscordIdIsMentioned(c: ContributorEntry, n: int)
    requires c.discord == PyInt(n) && n > 0
    ensures DiscordId(c) == Some(PyInt(n))
    ensures DiscordMention(c) == Some("<@" + Show(n) + ">")
  {
    PositiveIsNotMarker(n);
  }

  /** A tuple is a falsy marker only when it is empty. */
  lemma NonEmptyTupleIsNotMarker(items: seq<PyValue>)
    requires items != []
    ensures !IsFalseMarker(PyTuple(items))
  {
    var t := Str(PyTuple(items));
    assert t[0] == '(';
    assert |ReprJoin(items)| > 0 by {
      NonEmptyRepr(items[0]);
    }
  }

  /** A list is a falsy marker only when it is empty. */
  lemma NonEmptyListIsNotMarker(items: seq<PyValue>)
    requires items != []
    ensures !IsFalseMarker(PyList(items))
  {
    var t := Str(PyList(items));
    assert t[0] == '[';
    assert |ReprJoin(items)| > 0 by {
      NonEmptyRepr(items[0]);
    }
  }

  /** The empty tuple and the empty list are markers, through their texts
      "()" and "[]". */
  lemma EmptySequencesAreMarkers()
    ensures IsFalseMarker(PyTuple([])) && IsFalseMarker(PyList([]))
  {
    assert Str(PyTuple([])) == "()" && Str(PyList([])) == "[]";
    assert LowerStr("()") == "()" && LowerStr("[]") == "[]";
  }

  /** `tuple(map(str, ...))` accepts any iterable: a GitHub field written as
      a list reads exactly as the tuple with the same elements. */
  lemma GithubListAsTuple(name: string, discord: PyValue, items: seq<PyValue>)
    ensures Github(ContributorEntry(name, discord, PyList(items))) ==
      Github(ContributorEntry(name, discord, PyTuple(items)))
  {
    if items == [] {
      EmptySequencesAreMarkers();
    } else {
      NonEmptyTupleIsNotMarker(items);
      NonEmptyListIsNotMarker(items);
    }
  }

  lemma NonEmptyRepr(v: PyValue)
    ensures |Repr(v)| > 0
  {
    if v.PyInt? {
      assert |ShowNat(if v.i < 0 then -v.i else v.i)| > 0;
    }
  }

  /** A well-formed GitHub pair (positive ID, node ID that is not a marker)
      is returned unchanged. */
  lemma GithubPairIsKept(c: ContributorEntry, n: int, node: string)
    requires c.github == PyTuple([PyInt(n), PyStr(node)]) && n > 0
    requires node !in FalseData
    ensures Github(c) == Ok(GithubIds(Some(n), Some(node)))
  {
    NonEmptyTupleIsNotMarker([PyInt(n), PyStr(node)]);
    PositiveIsNotMarker(n);
    ParseShowNat(n);
    var e := Elements(c.github).value;
    assert |e| == 2 && e[0] == Show(n) && e[1] == node;
    assert e == [Show(n), node];
  }

  /** The element checks are case-sensitive: a `None` node ID becomes the
      text "None" rather than being dropped. */
  lemma GithubNoneNodeIsText(c: ContributorEntry, n: int)
    requires c.github == PyTuple([PyInt(n), PyNone]) && n > 0
    ensures Github(c) == Ok(GithubIds(Some(n), Some("None")))
  {
    NonEmptyTupleIsNotMarker([PyInt(n), PyNone]);
    PositiveIsNotMarker(n);
    ParseShowNat(n);
    var e := Elements(c.github).value;
    assert |e| == 2 && e[0] == Show(n) && e[1] == "None";
    assert e == [Show(n), "None"];
  }
}

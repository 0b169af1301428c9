/** Resolution of a user reference given to a command: a member or user
    object, a numeric ID, a mention, `name#discriminator`, a user name or a
    nickname, tried in that order. The bot's ID lookups and its caches are
    given as data. */
module Lookup {
  import opened Wrappers
  import opened Text

  datatype User = User(id: int, username: string, discriminator: string)

  datatype Member = Member(user: User, nickname: Option<string>)

  /** What a command received: `str | int | User | Member`. */
  datatype Raw = RawMember(member: Member) | RawUser(u: User) | RawInt(i: int) | RawStr(s: string)

  /** The command context: the guild's members in order, the user cache in
      order, and what the bot answers when asked for a member or a user by
      ID (absent keys are answered with `None`). */
  datatype Context = Context(
    members: seq<Member>,
    userCache: seq<User>,
    memberById: map<int, Member>,
    userById: map<int, User>)

  /** The index of the first element satisfying `p`. */
  function FirstIndex<T>(s: seq<T>, p: T -> bool): (r: Option<nat>)
    ensures r.Some? ==> r.value < |s| && p(s[r.value])
    ensures r.Some? ==> forall j :: 0 <= j < r.value ==> !p(s[j])
    ensures r.None? ==> forall j :: 0 <= j < |s| ==> !p(s[j])
  {
    if |s| == 0 then None
    else if p(s[0]) then Some(0)
    else match FirstIndex(s[1..], p)
      case None => None
      case Some(k) => Some(k + 1)
  }

  /** The first element satisfying `p`, as the `for ... return` loops give. */
  function FirstWhere<T>(s: seq<T>, p: T -> bool): (r: Option<T>)
    ensures r.Some? ==> exists k :: 0 <= k < |s| && s[k] == r.value && p(s[k]) && forall j :: 0 <= j < k ==> !p(s[j])
    ensures r.None? ==> forall j :: 0 <= j < |s| ==> !p(s[j])
  {
    match FirstIndex(s, p)
    case None => None
    case Some(k) => Some(s[k])
  }

  function Lift<T>(m: map<int, T>, id: int): Option<T> {
    if id in m then Some(m[id]) else None
  }

  /** A one-character text when `present`, else the empty text. */
  function Opt(present: bool, c: char): string {
    if present then [c] else []
  }

  function DropFirst(s: string, c: char): string {
    if |s| > 0 && s[0] == c then s[1..] else s
  }

  function DropLast(s: string, c: char): string {
    if |s| > 0 && s[|s| - 1] == c then s[..|s| - 1] else s
  }

  /** The IDs a mention carries: 15 to 20 ASCII digits. */
  predicate MentionId(d: string) {
    15 <= |d| <= 20 && IsNumeric(d)
  }

  /** The texts the mention pattern accepts: an optional `<`, `@` and `!`,
      the ID, an optional `>`, and the final newline before which `$` also
      matches. */
  function MentionText(lt: bool, at: bool, bang: bool, d: string, gt: bool, nl: bool): string {
    (Opt(lt, '<') + (Opt(at, '@') + (Opt(bang, '!') + (d + Opt(gt, '>'))))) + Opt(nl, '\n')
  }

  /** `re.findall(r"^<?@?!?([0-9]{15,20})>?$", s)`: the captured digits. The
      optional prefix characters and the closing `>` are not digits, so each
      is taken exactly when present. `MentionRecognised` and
      `MentionOnlyFromForms` state which texts are recognised. */
  function MentionDigits(s: string): (r: Option<string>)
    ensures r.Some? ==> MentionId(r.value)
  {
    var d := DropLast(DropFirst(DropFirst(DropFirst(DropLast(s, '\n'), '<'), '@'), '!'), '>');
    if MentionId(d) then Some(d) else None
  }

  /** The position of the last `#`, as `str.rpartition` splits. */
  function LastHash(s: string): (r: Option<nat>)
    ensures r.Some? ==> r.value < |s| && s[r.value] == '#'
    ensures r.Some? ==> forall j :: r.value < j < |s| ==> s[j] != '#'
    ensures r.None? ==> forall j :: 0 <= j < |s| ==> s[j] != '#'
  {
    if |s| == 0 then None
    else if s[|s| - 1] == '#' then Some(|s| - 1)
    else LastHash(s[..|s| - 1])
  }

  /** The `name#discriminator` form applies when the text is longer than five
      characters and its fifth character from the end is `#`. */
  predicate HasDiscriminatorForm(s: string) {
    |s| > 5 && s[|s| - 5] == '#'
  }

  /** `s.rpartition("#")` for a text in that form: the parts before and after
      the last `#`. */
  function SplitTag(s: string): (r: (string, string))
    requires HasDiscriminatorForm(s)
    ensures s == r.0 + "#" + r.1 && '#' !in r.1
  {
    var k := LastHash(s).value;
    assert s == s[..k] + "#" + s[k + 1..];
    (s[..k], s[k + 1..])
  }

  predicate TagMatches(u: User, name: string, discriminator: string) {
    u.username == name && u.discriminator == discriminator
  }

  /** The user's name and discriminator are those of the text's tag. */
  predicate TaggedAs(u: User, s: string) {
    HasDiscriminatorForm(s) && TagMatches(u, SplitTag(s).0, SplitTag(s).1)
  }

  /** `get_member` for a text that is not all digits and not a mention. */
  function MemberByText(ctx: Context, s: string): Option<Member> {
    var tagged :=
      if HasDiscriminatorForm(s) then FirstWhere(ctx.members, (m: Member) => TaggedAs(m.user, s))
      else None;
    if tagged.Some? then tagged
    else
      var named := FirstWhere(ctx.members, (m: Member) => m.user.username == s);
      if named.Some? then named
      else FirstWhere(ctx.members, (m: Member) => m.nickname == Some(s))
  }

  /** `get_member`. A negative integer is not numeric text, so no case of the
      match applies to it and the answer is `None`. */
  function GetMember(ctx: Context, raw: Raw): Option<Member> {
    match raw
    case RawMember(m) => Some(m)
    case RawUser(u) => Lift(ctx.memberById, u.id)
    case RawInt(i) => if i >= 0 then Lift(ctx.memberById, i) else None
    case RawStr(s) =>
      if IsNumeric(s) then Lift(ctx.memberById, ParseDigits(s))
      else match MentionDigits(s)
        case Some(d) => Lift(ctx.memberById, ParseDigits(d))
        case None => MemberByText(ctx, s)
  }

  /** `get_user` for a text that is not all digits and not a mention: tags and
      names are searched in the user cache, nicknames among the guild's
      members. */
  function UserByText(ctx: Context, s: string): Option<User> {
    var tagged :=
      if HasDiscriminatorForm(s) then FirstWhere(ctx.userCache, (u: User) => TaggedAs(u, s))
      else None;
    if tagged.Some? then tagged
    else
      var named := FirstWhere(ctx.userCache, (u: User) => u.username == s);
      if named.Some? then named
      else match FirstWhere(ctx.members, (m: Member) => m.nickname == Some(s))
        case Some(m) => Some(m.user)
        case None => None
  }

  /** `get_user`. */
  function GetUser(ctx: Context, raw: Raw): Option<User> {
    match raw
    case RawMember(m) => Some(m.user)
    case RawUser(u) => Some(u)
    case RawInt(i) => if i >= 0 then Lift(ctx.userById, i) else None
    case RawStr(s) =>
      if IsNumeric(s) then Lift(ctx.userById, ParseDigits(s))
      else match MentionDigits(s)
        case Some(d) => Lift(ctx.userById, ParseDigits(d))
        case None => UserByText(ctx, s)
  }

  /** Objects are returned without any lookup. */
  lemma ObjectsAsIs(ctx: Context, m: Member, u: User)
    ensures GetMember(ctx, RawMember(m)) == Some(m)
    ensures GetUser(ctx, RawMember(m)) == Some(m.user)
    ensures GetUser(ctx, RawUser(u)) == Some(u)
  {
  }

  /** A non-negative integer and its decimal text resolve alike, by ID. */
  lemma IdAndItsText(ctx: Context, id: nat)
    ensures GetMember(ctx, RawInt(id)) == GetMember(ctx, RawStr(ShowNat(id))) == Lift(ctx.memberById, id)
    ensures GetUser(ctx, RawInt(id)) == GetUser(ctx, RawStr(ShowNat(id))) == Lift(ctx.userById, id)
  {
    ParseShowNat(id);
  }

  lemma DropFirstOpt(present: bool, c: char, rest: string)
    requires |rest| > 0 && rest[0] != c
    ensures DropFirst(Opt(present, c) + rest, c) == rest
  {
    if present {
      assert (Opt(present, c) + rest)[1..] == rest;
    }
  }

  lemma DropLastOpt(present: bool, c: char, rest: string)
    requires |rest| > 0 && rest[|rest| - 1] != c
    ensures DropLast(rest + Opt(present, c), c) == rest
  {
    if present {
      assert (rest + Opt(present, c))[..|rest|] == rest;
    }
  }

  lemma DropFirstSplit(s: string, c: char)
    ensures s == Opt(|s| > 0 && s[0] == c, c) + DropFirst(s, c)
  {
    if |s| > 0 && s[0] == c {
      assert s == [s[0]] + s[1..];
    }
  }

  lemma DropLastSplit(s: string, c: char)
    ensures s == DropLast(s, c) + Opt(|s| > 0 && s[|s| - 1] == c, c)
  {
    if |s| > 0 && s[|s| - 1] == c {
      assert s == s[..|s| - 1] + [s[|s| - 1]];
    }
  }

  /** Every form of a mention is recognised, and yields its ID. */
  lemma MentionRecognised(lt: bool, at: bool, bang: bool, d: string, gt: bool, nl: bool)
    requires MentionId(d)
    ensures MentionDigits(MentionText(lt, at, bang, d, gt, nl)) == Some(d)
  {
    var e := d + Opt(gt, '>');
    var c := Opt(bang, '!') + e;
    var b := Opt(at, '@') + c;
    var a := Opt(lt, '<') + b;
    assert IsDigit(d[0]) && IsDigit(d[|d| - 1]);
    assert e[0] == d[0] && a[|a| - 1] == e[|e| - 1];
    DropLastOpt(nl, '\n', a);
    DropFirstOpt(lt, '<', b);
    DropFirstOpt(at, '@', c);
    DropFirstOpt(bang, '!', e);
    DropLastOpt(gt, '>', d);
  }

  /** Only the forms of a mention are recognised. */
  lemma MentionOnlyFromForms(s: string)
    requires MentionDigits(s).Some?
    ensures exists lt: bool, at: bool, bang: bool, gt: bool, nl: bool ::
      s == MentionText(lt, at, bang, MentionDigits(s).value, gt, nl)
  {
    var body := DropLast(s, '\n');
    var a := DropFirst(body, '<');
    var b := DropFirst(a, '@');
    var c := DropFirst(b, '!');
    var d := DropLast(c, '>');
    assert MentionDigits(s) == Some(d);
    var lt, at, bang := |body| > 0 && body[0] == '<', |a| > 0 && a[0] == '@', |b| > 0 && b[0] == '!';
    var gt, nl := |c| > 0 && c[|c| - 1] == '>', |s| > 0 && s[|s| - 1] == '\n';
    DropLastSplit(s, '\n');
    DropFirstSplit(body, '<');
    DropFirstSplit(a, '@');
    DropFirstSplit(b, '!');
    DropLastSplit(c, '>');
    assert s == MentionText(lt, at, bang, d, gt, nl);
  }

  /** Numeric text passes the pattern's optional characters untouched. */
  lemma NumericMention(s: string)
    requires IsNumeric(s)
    ensures MentionDigits(s) == (if MentionId(s) then Some(s) else None)
  {
    assert IsDigit(s[0]) && IsDigit(s[|s| - 1]);
  }

  /** A recognised text resolves by the ID it carries, whether it takes the
      numeric branch (the bare ID) or the mention branch. */
  lemma ResolvesByMention(ctx: Context, s: string)
    requires MentionDigits(s).Some?
    ensures GetMember(ctx, RawStr(s)) == Lift(ctx.memberById, ParseDigits(MentionDigits(s).value))
    ensures GetUser(ctx, RawStr(s)) == Lift(ctx.userById, ParseDigits(MentionDigits(s).value))
  {
    if IsNumeric(s) {
      NumericMention(s);
    }
  }

  /** Every form of a mention resolves by the ID it carries. */
  lemma MentionResolvesById(ctx: Context, lt: bool, at: bool, bang: bool, d: string, gt: bool, nl: bool)
    requires MentionId(d)
    ensures GetMember(ctx, RawStr(MentionText(lt, at, bang, d, gt, nl))) == Lift(ctx.memberById, ParseDigits(d))
    ensures GetUser(ctx, RawStr(MentionText(lt, at, bang, d, gt, nl))) == Lift(ctx.userById, ParseDigits(d))
  {
    MentionRecognised(lt, at, bang, d, gt, nl);
    ResolvesByMention(ctx, MentionText(lt, at, bang, d, gt, nl));
  }

  /** The first element satisfying `p` is the one `FirstWhere` finds. */
  lemma FirstWhereIsFirst<T>(s: seq<T>, p: T -> bool, i: int)
    requires 0 <= i < |s| && p(s[i]) && forall j :: 0 <= j < i ==> !p(s[j])
    ensures FirstWhere(s, p) == Some(s[i])
  {
  }

  /** The first member whose name and discriminator match the tag wins. */
  lemma MemberByTag(ctx: Context, s: string, i: int)
    requires !IsNumeric(s) && MentionDigits(s).None?
    requires 0 <= i < |ctx.members| && TaggedAs(ctx.members[i].user, s)
    requires forall j :: 0 <= j < i ==> !TaggedAs(ctx.members[j].user, s)
    ensures GetMember(ctx, RawStr(s)) == Some(ctx.members[i])
  {
    FirstWhereIsFirst(ctx.members, (m: Member) => TaggedAs(m.user, s), i);
  }

  /** Failing a tag match, the first member with the user name wins. */
  lemma MemberByName(ctx: Context, s: string, i: int)
    requires !IsNumeric(s) && MentionDigits(s).None?
    requires forall j :: 0 <= j < |ctx.members| ==> !TaggedAs(ctx.members[j].user, s)
    requires 0 <= i < |ctx.members| && ctx.members[i].user.username == s
    requires forall j :: 0 <= j < i ==> ctx.members[j].user.username != s
    ensures GetMember(ctx, RawStr(s)) == Some(ctx.members[i])
  {
    FirstWhereIsFirst(ctx.members, (m: Member) => m.user.username == s, i);
  }

  /** Failing a tag and a name match, the first member with the nickname
      wins. */
  lemma MemberByNickname(ctx: Context, s: string, i: int)
    requires !IsNumeric(s) && MentionDigits(s).None?
    requires forall j :: 0 <= j < |ctx.members| ==>
      !TaggedAs(ctx.members[j].user, s) && ctx.members[j].user.username != s
    requires 0 <= i < |ctx.members| && ctx.members[i].nickname == Some(s)
    requires forall j :: 0 <= j < i ==> ctx.members[j].nickname != Some(s)
    ensures GetMember(ctx, RawStr(s)) == Some(ctx.members[i])
  {
    FirstWhereIsFirst(ctx.members, (m: Member) => m.nickname == Some(s), i);
  }

  /** No member is found exactly when none matches in any of the three ways. */
  lemma MemberNotFound(ctx: Context, s: string)
    requires !IsNumeric(s) && MentionDigits(s).None?
    ensures GetMember(ctx, RawStr(s)).None? <==> forall j :: 0 <= j < |ctx.members| ==>
      !TaggedAs(ctx.members[j].user, s) && ctx.members[j].user.username != s
      && ctx.members[j].nickname != Some(s)
  {
    var byNick := FirstWhere(ctx.members, (m: Member) => m.nickname == Some(s));
    if GetMember(ctx, RawStr(s)).None? {
      assert MemberByText(ctx, s) == byNick;
    }
  }

  /** Precedence of `get_member` for a text that is neither numeric nor a
      mention: the first member whose name and discriminator match the tag;
      failing any, the first member with that user name; failing any, the
      first with that nickname; failing all three, none. */
  lemma MemberPrecedence(ctx: Context, s: string)
    requires !IsNumeric(s) && MentionDigits(s).None?
    ensures forall i :: (0 <= i < |ctx.members| && TaggedAs(ctx.members[i].user, s)
      && forall j :: 0 <= j < i ==> !TaggedAs(ctx.members[j].user, s)) ==>
      GetMember(ctx, RawStr(s)) == Some(ctx.members[i])
    ensures (forall j :: 0 <= j < |ctx.members| ==> !TaggedAs(ctx.members[j].user, s)) ==>
      forall i :: (0 <= i < |ctx.members| && ctx.members[i].user.username == s
        && forall j :: 0 <= j < i ==> ctx.members[j].user.username != s) ==>
        GetMember(ctx, RawStr(s)) == Some(ctx.members[i])
    ensures (forall j :: 0 <= j < |ctx.members| ==>
      !TaggedAs(ctx.members[j].user, s) && ctx.members[j].user.username != s) ==>
      forall i :: (0 <= i < |ctx.members| && ctx.members[i].nickname == Some(s)
        && forall j :: 0 <= j < i ==> ctx.members[j].nickname != Some(s)) ==>
        GetMember(ctx, RawStr(s)) == Some(ctx.members[i])
    ensures GetMember(ctx, RawStr(s)).None? <==> forall j :: 0 <= j < |ctx.members| ==>
      !TaggedAs(ctx.members[j].user, s) && ctx.members[j].user.username != s
      && ctx.members[j].nickname != Some(s)
  {
    forall i | (0 <= i < |ctx.members| && TaggedAs(ctx.members[i].user, s)
      && forall j :: 0 <= j < i ==> !TaggedAs(ctx.members[j].user, s))
      ensures GetMember(ctx, RawStr(s)) == Some(ctx.members[i])
    {
      MemberByTag(ctx, s, i);
    }
    if forall j :: 0 <= j < |ctx.members| ==> !TaggedAs(ctx.members[j].user, s) {
      forall i | (0 <= i < |ctx.members| && ctx.members[i].user.username == s
        && forall j :: 0 <= j < i ==> ctx.members[j].user.username != s)
        ensures GetMember(ctx, RawStr(s)) == Some(ctx.members[i])
      {
        MemberByName(ctx, s, i);
      }
    }
    if forall j :: 0 <= j < |ctx.members| ==>
      !TaggedAs(ctx.members[j].user, s) && ctx.members[j].user.username != s
    {
      forall i | (0 <= i < |ctx.members| && ctx.members[i].nickname == Some(s)
        && forall j :: 0 <= j < i ==> ctx.members[j].nickname != Some(s))
        ensures GetMember(ctx, RawStr(s)) == Some(ctx.members[i])
      {
        MemberByNickname(ctx, s, i);
      }
    }
    MemberNotFound(ctx, s);
  }

  /** The first cached user whose name and discriminator match the tag wins. */
  lemma UserByTag(ctx: Context, s: string, i: int)
    requires !IsNumeric(s) && MentionDigits(s).None?
    requires 0 <= i < |ctx.userCache| && TaggedAs(ctx.userCache[i], s)
    requires forall j :: 0 <= j < i ==> !TaggedAs(ctx.userCache[j], s)
    ensures GetUser(ctx, RawStr(s)) == Some(ctx.userCache[i])
  {
    FirstWhereIsFirst(ctx.userCache, (u: User) => TaggedAs(u, s), i);
  }

  /** Failing a tag match, the first cached user with the name wins. */
  lemma UserByName(ctx: Context, s: string, i: int)
    requires !IsNumeric(s) && MentionDigits(s).None?
    requires forall j :: 0 <= j < |ctx.userCache| ==> !TaggedAs(ctx.userCache[j], s)
    requires 0 <= i < |ctx.userCache| && ctx.userCache[i].username == s
    requires forall j :: 0 <= j < i ==> ctx.userCache[j].username != s
    ensures GetUser(ctx, RawStr(s)) == Some(ctx.userCache[i])
  {
    FirstWhereIsFirst(ctx.userCache, (u: User) => u.username == s, i);
  }

  /** Failing both in the user cache, the user of the first member with the
      nickname wins. */
  lemma UserByNickname(ctx: Context, s: string, i: int)
    requires !IsNumeric(s) && MentionDigits(s).None?
    requires forall j :: 0 <= j < |ctx.userCache| ==>
      !TaggedAs(ctx.userCache[j], s) && ctx.userCache[j].username != s
    requires 0 <= i < |ctx.members| && ctx.members[i].nickname == Some(s)
    requires forall j :: 0 <= j < i ==> ctx.members[j].nickname != Some(s)
    ensures GetUser(ctx, RawStr(s)) == Some(ctx.members[i].user)
  {
    FirstWhereIsFirst(ctx.members, (m: Member) => m.nickname == Some(s), i);
  }

  /** No user is found exactly when none matches in any of the three ways. */
  lemma UserNotFound(ctx: Context, s: string)
    requires !IsNumeric(s) && MentionDigits(s).None?
    ensures GetUser(ctx, RawStr(s)).None? <==>
      (forall j :: 0 <= j < |ctx.userCache| ==>
        !TaggedAs(ctx.userCache[j], s) && ctx.userCache[j].username != s)
      && (forall j :: 0 <= j < |ctx.members| ==> ctx.members[j].nickname != Some(s))
  {
  }

  /** Precedence of `get_user` for a text that is neither numeric nor a
      mention: tags and then user names are searched in the user cache, and
      only then nicknames among the guild's members, whose user is the
      answer; each time the first match wins. */
  lemma UserPrecedence(ctx: Context, s: string)
    requires !IsNumeric(s) && MentionDigits(s).None?
    ensures forall i :: (0 <= i < |ctx.userCache| && TaggedAs(ctx.userCache[i], s)
      && forall j :: 0 <= j < i ==> !TaggedAs(ctx.userCache[j], s)) ==>
      GetUser(ctx, RawStr(s)) == Some(ctx.userCache[i])
    ensures (forall j :: 0 <= j < |ctx.userCache| ==> !TaggedAs(ctx.userCache[j], s)) ==>
      forall i :: (0 <= i < |ctx.userCache| && ctx.userCache[i].username == s
        && forall j :: 0 <= j < i ==> ctx.userCache[j].username != s) ==>
        GetUser(ctx, RawStr(s)) == Some(ctx.userCache[i])
    ensures (forall j :: 0 <= j < |ctx.userCache| ==>
      !TaggedAs(ctx.userCache[j], s) && ctx.userCache[j].username != s) ==>
      forall i :: (0 <= i < |ctx.members| && ctx.members[i].nickname == Some(s)
        && forall j :: 0 <= j < i ==> ctx.members[j].nickname != Some(s)) ==>
        GetUser(ctx, RawStr(s)) == Some(ctx.members[i].user)
    ensures GetUser(ctx, RawStr(s)).None? <==>
      (forall j :: 0 <= j < |ctx.userCache| ==>
        !TaggedAs(ctx.userCache[j], s) && ctx.userCache[j].username != s)
      && (forall j :: 0 <= j < |ctx.members| ==> ctx.members[j].nickname != Some(s))
  {
    forall i | (0 <= i < |ctx.userCache| && TaggedAs(ctx.userCache[i], s)
      && forall j :: 0 <= j < i ==> !TaggedAs(ctx.userCache[j], s))
      ensures GetUser(ctx, RawStr(s)) == Some(ctx.userCache[i])
    {
      UserByTag(ctx, s, i);
    }
    if forall j :: 0 <= j < |ctx.userCache| ==> !TaggedAs(ctx.userCache[j], s) {
      forall i | (0 <= i < |ctx.userCache| && ctx.userCache[i].username == s
        && forall j :: 0 <= j < i ==> ctx.userCache[j].username != s)
        ensures GetUser(ctx, RawStr(s)) == Some(ctx.userCache[i])
      {
        UserByName(ctx, s, i);
      }
    }
    if forall j :: 0 <= j < |ctx.userCache| ==>
      !TaggedAs(ctx.userCache[j], s) && ctx.userCache[j].username != s
    {
      forall i | (0 <= i < |ctx.members| && ctx.members[i].nickname == Some(s)
        && forall j :: 0 <= j < i ==> ctx.members[j].nickname != Some(s))
        ensures GetUser(ctx, RawStr(s)) == Some(ctx.members[i].user)
      {
        UserByNickname(ctx, s, i);
      }
    }
    UserNotFound(ctx, s);
  }
}

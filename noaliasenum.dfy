/** The enumeration base class that settings and statistics are declared
    with. A member knows the package of the module that declares it, its own
    name and its value; from these it derives the name of its scale and the
    key under which it is stored. */
module NoAliasEnum {

  datatype EnumMember<V> = EnumMember(package: string, name: string, value: V)

  /** The scale a member belongs to: the text after the last `.` of the
      declaring package, or the whole package name when it has no `.`. */
  function Scale(package: string): (r: string)
    ensures '.' !in r
    ensures |r| <= |package| && r == package[|package| - |r|..]
    ensures |r| < |package| ==> package[|package| - |r| - 1] == '.'
  {
    if |package| == 0 || package[|package| - 1] == '.' then []
    else Scale(package[..|package| - 1]) + [package[|package| - 1]]
  }

  /** The storage key of a member: `scale:name`. */
  function Fullname<V>(m: EnumMember<V>): string {
    Scale(m.package) + ":" + m.name
  }

  /** A member's default is its value. */
  function Default<V>(m: EnumMember<V>): (r: V)
    ensures r == m.value
  {
    m.value
  }

  /** Reading a key back: the scale is everything before the first `:`. */
  function ScaleOfKey(key: string): (r: string)
    ensures |r| <= |key| && r == key[..|r|]
    ensures ':' !in r
    ensures |r| < |key| ==> key[|r|] == ':'
  {
    if |key| == 0 || key[0] == ':' then [] else [key[0]] + ScaleOfKey(key[1..])
  }

  lemma {:induction false} ScaleOfKeyPrefix(a: string, b: string)
    requires ':' !in a
    ensures ScaleOfKey(a + ":" + b) == a
  {
    if |a| > 0 {
      assert (a + ":" + b)[1..] == a[1..] + ":" + b;
      ScaleOfKeyPrefix(a[1..], b);
    }
  }

  /** A key `a:b` whose first part holds no `:` splits back into its parts. */
  lemma KeySplit(a1: string, b1: string, a2: string, b2: string)
    requires ':' !in a1 && ':' !in a2
    requires a1 + ":" + b1 == a2 + ":" + b2
    ensures a1 == a2 && b1 == b2
  {
    ScaleOfKeyPrefix(a1, b1);
    ScaleOfKeyPrefix(a2, b2);
    var k := a1 + ":" + b1;
    assert k[|a1| + 1..] == b1;
    assert (a2 + ":" + b2)[|a2| + 1..] == b2;
  }

  /** The scale is a part of the package name, so it holds no `:` when the
      package holds none. */
  lemma {:induction false} ScaleOfPlainPackage(package: string)
    requires ':' !in package
    ensures ':' !in Scale(package)
  {
    if |package| > 0 && package[|package| - 1] != '.' {
      var front := package[..|package| - 1];
      assert forall c :: c in front ==> c in package;
      ScaleOfPlainPackage(front);
    }
  }

  /** Two members whose packages contain no `:` share a storage key only if
      they belong to the same scale and have the same name, so settings and
      counters of different scales never collide. */
  lemma FullnameInjective<V>(m1: EnumMember<V>, m2: EnumMember<V>)
    requires ':' !in m1.package && ':' !in m2.package
    requires Fullname(m1) == Fullname(m2)
    ensures Scale(m1.package) == Scale(m2.package) && m1.name == m2.name
  {
    ScaleOfPlainPackage(m1.package);
    ScaleOfPlainPackage(m2.package);
    KeySplit(Scale(m1.package), m1.name, Scale(m2.package), m2.name);
  }
}

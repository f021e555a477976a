/**
 * The decision logic of the orphaned "keyPathsForValuesAffecting<Key>" check:
 * which declarations are candidates, where a candidate's diagnostic is
 * anchored, which getter names can satisfy a candidate (in which order), and
 * the warning an orphaned candidate produces.
 */
module KeyPaths {

  datatype Option<T> = None | Some(value: T)

  /** Identifies the class interface a method belongs to. */
  type ClassId = nat

  /**
   * An Objective-C method declaration, as far as the check looks at it.
   * `id` stands for the declaration's identity (the C++ code keys its map
   * by the declaration pointer); `selectorStart` is the source offset at
   * which the selector begins.
   */
  datatype MethodDecl = MethodDecl(
    id: nat,
    numArgs: nat,
    isClassMethod: bool,
    name: string,
    classId: ClassId,
    selectorStart: int)

  /** A top-level declaration: an Objective-C method, or anything else. */
  datatype Decl = Method(decl: MethodDecl) | Other(id: nat)

  /** The getters visible on each class (instance methods, public or private). */
  type GetterTable = map<ClassId, set<string>>

  /** A warning reported through the diagnostics engine. */
  datatype Diagnostic = Warning(position: int, message: string)

  /** The fixed, case-sensitive selector prefix of a dependent-keys method. */
  const Prefix: string := "keyPathsForValuesAffecting"

  // ---------------------------------------------------------------------
  // Collection
  // ---------------------------------------------------------------------

  /**
   * The collector's filter: a zero-argument class method whose name is
   * strictly longer than the prefix and begins with it.
   */
  predicate IsAffectingDecl(m: MethodDecl)
  {
    m.numArgs == 0 && m.isClassMethod && |m.name| > |Prefix| && Prefix <= m.name
  }

  /** The recorded anchor: the selector start advanced past the prefix. */
  function Anchor(m: MethodDecl): int
  {
    m.selectorStart + |Prefix|
  }

  /** What one declaration adds to the candidate map. */
  function Recorded(d: Decl): map<MethodDecl, int>
  {
    match d
    case Method(m) => if IsAffectingDecl(m) then map[m := Anchor(m)] else map[]
    case Other(_) => map[]
  }

  /** The candidate map a declaration group produces, declaration by declaration. */
  function Collected(group: seq<Decl>): map<MethodDecl, int>
    decreases |group|
  {
    if group == [] then map[]
    else Collected(group[..|group| - 1]) + Recorded(group[|group| - 1])
  }

  /**
   * A method is recorded exactly when it occurs in the group and passes the
   * filter, and its recorded anchor is its selector start plus 26.
   */
  lemma {:induction false} CollectedExactly(group: seq<Decl>, m: MethodDecl)
    ensures m in Collected(group) <==> Method(m) in group && IsAffectingDecl(m)
    ensures m in Collected(group) ==> Collected(group)[m] == m.selectorStart + 26
  {
    if group != [] {
      var init, last := group[..|group| - 1], group[|group| - 1];
      assert group == init + [last];
      CollectedExactly(init, m);
      assert Method(m) in group <==> Method(m) in init || last == Method(m);
    }
  }

  /** Folding in the next declaration of the group adds what it records. */
  lemma CollectedSnoc(group: seq<Decl>, i: nat)
    requires i < |group|
    ensures Collected(group[..i + 1]) == Collected(group[..i]) + Recorded(group[i])
  {
    assert group[..i + 1][..i] == group[..i];
  }

  /** A declaration records itself, at its anchor, exactly when it passes the filter. */
  lemma RecordedByFilter(d: Decl)
    ensures d.Method? && IsAffectingDecl(d.decl) ==> Recorded(d) == map[d.decl := Anchor(d.decl)]
    ensures !(d.Method? && IsAffectingDecl(d.decl)) ==> Recorded(d) == map[]
  {
  }

  /** Every entry of a candidate map passed the filter and carries its own anchor. */
  ghost predicate WellRecorded(candidates: map<MethodDecl, int>)
  {
    forall m :: m in candidates ==> IsAffectingDecl(m) && candidates[m] == Anchor(m)
  }

  /** What a group records is well recorded. */
  lemma {:induction false} CollectedWellRecorded(group: seq<Decl>)
    ensures WellRecorded(Collected(group))
  {
    forall m | m in Collected(group)
      ensures IsAffectingDecl(m) && Collected(group)[m] == Anchor(m)
    {
      CollectedExactly(group, m);
    }
  }

  /**
   * Instance methods, methods with arguments, and names that are not the
   * prefix followed by at least one character are never recorded.
   */
  lemma {:induction false} NeverRecorded(group: seq<Decl>, m: MethodDecl)
    requires !m.isClassMethod || m.numArgs > 0 || |m.name| <= |Prefix| || !(Prefix <= m.name)
    ensures m !in Collected(group)
  {
    CollectedExactly(group, m);
  }

  /**
   * Handling two groups one after the other records the same map as
   * handling their concatenation as one group.
   */
  lemma {:induction false} CollectedAppend(g1: seq<Decl>, g2: seq<Decl>)
    ensures Collected(g1 + g2) == Collected(g1) + Collected(g2)
    decreases |g2|
  {
    if g2 == [] {
      assert g1 + g2 == g1;
    } else {
      var init, last := g2[..|g2| - 1], g2[|g2| - 1];
      var whole := g1 + g2;
      assert whole[..|whole| - 1] == g1 + init;
      assert whole[|whole| - 1] == last;
      assert Collected(whole) == Collected(g1 + init) + Recorded(last);
      CollectedAppend(g1, init);
      MapUnionAssoc(Collected(g1), Collected(init), Recorded(last));
    }
  }

  /** Map union is associative. */
  lemma MapUnionAssoc<K, V>(a: map<K, V>, b: map<K, V>, c: map<K, V>)
    ensures (a + b) + c == a + (b + c)
  {
  }

  /** A union with nothing added is unchanged. */
  lemma MapUnionEmpty<K, V>(a: map<K, V>, b: map<K, V>)
    ensures a + (b + map[]) == a + b
  {
  }

  /** Adding one entry after a union is the union with the entry added. */
  lemma MapUnionSingleton<K, V>(a: map<K, V>, b: map<K, V>, k: K, v: V)
    ensures (a + b)[k := v] == a + (b + map[k := v])
  {
  }

  // ---------------------------------------------------------------------
  // Key derivation
  // ---------------------------------------------------------------------

  /** The selector name with the prefix's length removed from the front. */
  function KeyOf(name: string): (key: string)
    requires |Prefix| <= |name|
    ensures |key| == |name| - |Prefix|
    ensures name == name[..|Prefix|] + key
  {
    name[|Prefix|..]
  }

  /**
   * A recorded candidate's key is non-empty and is exactly what follows the
   * prefix; the anchor offset, taken within the selector, indexes the key's
   * first character.
   */
  lemma CandidateKey(m: MethodDecl)
    requires IsAffectingDecl(m)
    ensures |KeyOf(m.name)| > 0
    ensures Prefix + KeyOf(m.name) == m.name
    ensures m.name[Anchor(m) - m.selectorStart] == KeyOf(m.name)[0]
  {
    assert m.name[..|Prefix|] == Prefix;
  }

  predicate IsUpperAscii(c: char)
  {
    'A' <= c <= 'Z'
  }

  /** ASCII lowercasing of one character. */
  function ToLowerAscii(c: char): (r: char)
    ensures !IsUpperAscii(r)
    ensures !IsUpperAscii(c) ==> r == c
    ensures IsUpperAscii(c) ==> 'a' <= r <= 'z' && r as int - c as int == 'a' as int - 'A' as int
  {
    if IsUpperAscii(c) then (c as int - 'A' as int + 'a' as int) as char else c
  }

  /** The key with its first character lowercased, all others kept. */
  function LowercaseKey(key: string): (lower: string)
    requires |key| > 0
    ensures |lower| == |key|
    ensures lower[0] == ToLowerAscii(key[0]) && !IsUpperAscii(lower[0])
    ensures forall i :: 1 <= i < |key| ==> lower[i] == key[i]
  {
    key[0 := ToLowerAscii(key[0])]
  }

  /** Lowercasing the key twice gives what lowercasing once gives. */
  lemma LowercaseKeyIdempotent(key: string)
    requires |key| > 0
    ensures LowercaseKey(LowercaseKey(key)) == LowercaseKey(key)
  {
    var once := LowercaseKey(key);
    var twice := LowercaseKey(once);
    assert forall i :: 0 <= i < |key| ==> twice[i] == once[i];
  }

  /** A key that does not start with an upper-case letter is its own lower-camel form. */
  lemma LowercaseKeyUnchanged(key: string)
    requires |key| > 0 && !IsUpperAscii(key[0])
    ensures LowercaseKey(key) == key
  {
    assert forall i :: 0 <= i < |key| ==> LowercaseKey(key)[i] == key[i];
  }

  // ---------------------------------------------------------------------
  // Getter matching
  // ---------------------------------------------------------------------

  /** The four getter names tried for a key, in the order they are tried. */
  function GetterNames(key: string): seq<string>
    requires |key| > 0
  {
    [key, LowercaseKey(key), "is" + key, "countOf" + key]
  }

  /** Whether the class has a getter with this name. */
  function HasGetter(getters: GetterTable, cls: ClassId, name: string): (found: bool)
    ensures found <==> cls in getters && name in getters[cls]
    ensures cls !in getters ==> !found
  {
    cls in getters && name in getters[cls]
  }

  /** A candidate is satisfied when the class has any one of the four getters. */
  predicate Satisfied(getters: GetterTable, cls: ClassId, key: string)
    requires |key| > 0
  {
    exists j :: 0 <= j < |GetterNames(key)| && HasGetter(getters, cls, GetterNames(key)[j])
  }

  /**
   * The chain of getter lookups: the index into `GetterNames(key)` of the
   * first name the class has, or None when it has none of them.
   */
  function MatchingGetter(getters: GetterTable, cls: ClassId, key: string): (r: Option<nat>)
    requires |key| > 0
    ensures r.Some? ==> r.value < |GetterNames(key)| && HasGetter(getters, cls, GetterNames(key)[r.value])
    ensures r.Some? ==> forall j :: 0 <= j < r.value ==> !HasGetter(getters, cls, GetterNames(key)[j])
    ensures r.None? <==> !Satisfied(getters, cls, key)
  {
    if HasGetter(getters, cls, key) then Some(0)
    else
      var lowercaseKey := LowercaseKey(key);
      if HasGetter(getters, cls, lowercaseKey) then Some(1)
      else if HasGetter(getters, cls, "is" + key) then Some(2)
      else if HasGetter(getters, cls, "countOf" + key) then Some(3)
      else None
  }

  /**
   * The "is" and "countOf" forms are built from the capitalised key: for a
   * key starting with an upper-case letter, neither form built from the
   * lower-camel key is among the names tried.
   */
  lemma CapitalisedForms(key: string)
    requires |key| > 0 && IsUpperAscii(key[0])
    ensures "is" + LowercaseKey(key) !in GetterNames(key)
    ensures "countOf" + LowercaseKey(key) !in GetterNames(key)
  {
    var lower := LowercaseKey(key);
    assert ("is" + lower)[2] != ("is" + key)[2];
    assert ("countOf" + lower)[7] != ("countOf" + key)[7];
    assert ("is" + lower)[0] != key[0];
    assert ("countOf" + lower)[0] != key[0];
  }

  // ---------------------------------------------------------------------
  // Diagnostics
  // ---------------------------------------------------------------------

  const MessageLead: string := "Corresponding getter not found for key '"

  /** The warning text naming the lower-camel key in single quotes. */
  function Message(lowercaseKey: string): string
  {
    MessageLead + lowercaseKey + "'"
  }

  /** The quoted key can be read back from the message, so distinct keys give distinct messages. */
  lemma MessageNamesKey(k1: string, k2: string)
    ensures Message(k1)[|MessageLead|..|Message(k1)| - 1] == k1
    ensures Message(k1) == Message(k2) ==> k1 == k2
  {
    assert Message(k1)[|MessageLead|..|Message(k1)| - 1] == k1;
    assert Message(k2)[|MessageLead|..|Message(k2)| - 1] == k2;
  }

  /** The warning an orphaned candidate produces at the given anchor. */
  function OrphanWarning(m: MethodDecl, anchor: int): Diagnostic
    requires |m.name| > |Prefix|
  {
    Warning(anchor, Message(LowercaseKey(KeyOf(m.name))))
  }

  /**
   * The per-candidate decision: no diagnostic when one of the four getters
   * exists, otherwise the warning naming the lower-camel key at the anchor.
   */
  function Resolve(getters: GetterTable, m: MethodDecl, anchor: int): (r: Option<Diagnostic>)
    requires |m.name| > |Prefix|
    ensures r.None? <==> Satisfied(getters, m.classId, KeyOf(m.name))
    ensures r.None? <==>
      var key := KeyOf(m.name);
      HasGetter(getters, m.classId, key) ||
      HasGetter(getters, m.classId, LowercaseKey(key)) ||
      HasGetter(getters, m.classId, "is" + key) ||
      HasGetter(getters, m.classId, "countOf" + key)
    ensures r.Some? ==> r.value.position == anchor && r.value == OrphanWarning(m, anchor)
  {
    var capitalizedKeyName := KeyOf(m.name);
    match MatchingGetter(getters, m.classId, capitalizedKeyName)
    case Some(_) => None
    case None => Some(Warning(anchor, Message(LowercaseKey(capitalizedKeyName))))
  }

  /** The recorded candidates that no getter satisfies. */
  function Orphans(getters: GetterTable, candidates: map<MethodDecl, int>): set<MethodDecl>
  {
    set m | m in candidates && IsAffectingDecl(m) && !Satisfied(getters, m.classId, KeyOf(m.name))
  }
}

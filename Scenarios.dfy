/**
 * What the model yields on concrete declarations: which ones are recorded,
 * which getter satisfies a candidate, and what warning an orphan produces.
 */
module Scenarios {
  import opened KeyPaths
  import opened Consumer

  const FooClass: ClassId := 7

  /** A zero-argument class method named `name`, at source offset 100. */
  function ClassMethod(id: nat, name: string): MethodDecl
  {
    MethodDecl(id, 0, true, name, FooClass, 100)
  }

  /** For key `Foo` the names tried are `Foo`, `foo`, `isFoo` and `countOfFoo`, in that order. */
  lemma NamesTriedForFoo()
    ensures GetterNames("Foo") == ["Foo", "foo", "isFoo", "countOfFoo"]
  {
    assert LowercaseKey("Foo") == "foo";
    assert "is" + "Foo" == "isFoo";
    assert "countOf" + "Foo" == "countOfFoo";
  }

  /** `+keyPathsForValuesAffectingFullName` is satisfied by the lower-camel getter `fullName`. */
  lemma LowerCamelGetterSatisfies()
    ensures IsAffectingDecl(ClassMethod(1, "keyPathsForValuesAffectingFullName"))
    ensures MatchingGetter(map[FooClass := {"fullName"}], FooClass, "FullName") == Some(1)
    ensures Resolve(map[FooClass := {"fullName"}], ClassMethod(1, "keyPathsForValuesAffectingFullName"), 126) == None
  {
    var m := ClassMethod(1, "keyPathsForValuesAffectingFullName");
    assert m.name[..|Prefix|] == Prefix;
    assert KeyOf(m.name) == "FullName";
    assert LowercaseKey("FullName") == "fullName";
  }

  /**
   * `+keyPathsForValuesAffectingURL` with only a getter `url`: only the first
   * character is lowercased, so the getter is not found and the warning
   * names the key `uRL`, at the position just past the prefix.
   */
  lemma AcronymKeyLowercasesFirstCharacterOnly()
    ensures IsAffectingDecl(ClassMethod(2, "keyPathsForValuesAffectingURL"))
    ensures Anchor(ClassMethod(2, "keyPathsForValuesAffectingURL")) == 126
    ensures Resolve(map[FooClass := {"url"}], ClassMethod(2, "keyPathsForValuesAffectingURL"), 126)
         == Some(Warning(126, "Corresponding getter not found for key 'uRL'"))
  {
    var m := ClassMethod(2, "keyPathsForValuesAffectingURL");
    assert m.name[..|Prefix|] == Prefix;
    assert KeyOf(m.name) == "URL";
    assert LowercaseKey("URL") == "uRL";
    assert "uRL"[1] != "url"[1] && "URL"[0] != "url"[0];
    assert Message("uRL") == "Corresponding getter not found for key 'uRL'";
    assert |"is" + "URL"| != |"url"| && |"countOf" + "URL"| != |"url"|;
  }

  /** `+keyPathsForValuesAffectingIsValid` is satisfied by `isIsValid`, the third name tried. */
  lemma BooleanGetterSatisfies()
    ensures MatchingGetter(map[FooClass := {"isIsValid"}], FooClass, "IsValid") == Some(2)
    ensures Resolve(map[FooClass := {"isIsValid"}], ClassMethod(3, "keyPathsForValuesAffectingIsValid"), 126) == None
  {
    var m := ClassMethod(3, "keyPathsForValuesAffectingIsValid");
    assert KeyOf(m.name) == "IsValid";
    assert LowercaseKey("IsValid") == "isValid";
    assert |"isValid"| != |"isIsValid"|;
    assert "is" + "IsValid" == "isIsValid";
  }

  /** `+keyPathsForValuesAffectingItems` is satisfied by `countOfItems`, the last name tried. */
  lemma CountGetterSatisfies()
    ensures MatchingGetter(map[FooClass := {"countOfItems"}], FooClass, "Items") == Some(3)
  {
    assert LowercaseKey("Items") == "items";
    assert |"is" + "Items"| != |"countOfItems"|;
    assert "countOf" + "Items" == "countOfItems";
  }

  /** A one-argument method, an instance method and a wrongly capitalised prefix are never recorded. */
  lemma NonCandidatesNotRecorded()
    ensures Collected([
      Method(MethodDecl(4, 1, true, "keyPathsForValuesAffectingFoo:", FooClass, 100)),
      Method(MethodDecl(5, 0, false, "keyPathsForValuesAffectingFoo", FooClass, 200)),
      Method(MethodDecl(6, 0, true, "KeyPathsForValuesAffectingFoo", FooClass, 300)),
      Method(MethodDecl(7, 0, true, "keyPathsForValuesAffecting", FooClass, 400)),
      Other(8)]) == map[]
  {
    var wrongCase := MethodDecl(6, 0, true, "KeyPathsForValuesAffectingFoo", FooClass, 300);
    assert wrongCase.name[0] != Prefix[0];
    var group := [
      Method(MethodDecl(4, 1, true, "keyPathsForValuesAffectingFoo:", FooClass, 100)),
      Method(MethodDecl(5, 0, false, "keyPathsForValuesAffectingFoo", FooClass, 200)),
      Method(wrongCase),
      Method(MethodDecl(7, 0, true, "keyPathsForValuesAffecting", FooClass, 400)),
      Other(8)];
    forall m | m in Collected(group) ensures false {
      CollectedExactly(group, m);
    }
  }

  const Title: MethodDecl := ClassMethod(10, "keyPathsForValuesAffectingTitle")
  const Items: MethodDecl := ClassMethod(11, "keyPathsForValuesAffectingItems")
  const TitleItemsGroup: seq<Decl> := [Method(Title), Other(12), Method(Items)]
  const ItemsGetter: GetterTable := map[FooClass := {"items"}]

  /** The group records both candidates, each at offset 126. */
  lemma TitleItemsCollected()
    ensures Collected(TitleItemsGroup) == map[Title := 126, Items := 126]
  {
    assert Title.name[..|Prefix|] == Prefix && Items.name[..|Prefix|] == Prefix;
    var g := TitleItemsGroup;
    CollectedSnoc(g, 0);
    CollectedSnoc(g, 1);
    CollectedSnoc(g, 2);
    assert g[..0] == [] && g[..3] == g;
    RecordedByFilter(g[0]);
    RecordedByFilter(g[1]);
    RecordedByFilter(g[2]);
  }

  /** `Items` is satisfied by its lower-camel getter; `Title` has none of its four getters. */
  lemma TitleUnsatisfiedItemsSatisfied()
    ensures KeyOf(Title.name) == "Title" && KeyOf(Items.name) == "Items"
    ensures Satisfied(ItemsGetter, FooClass, "Items")
    ensures !Satisfied(ItemsGetter, FooClass, "Title")
  {
    assert LowercaseKey("Title") == "title" && LowercaseKey("Items") == "items";
    assert MatchingGetter(ItemsGetter, FooClass, "Items") == Some(1);
    assert "Title"[0] != "items"[0] && "title"[0] != "items"[0];
    assert |"is" + "Title"| != |"items"| && |"countOf" + "Title"| != |"items"|;
    assert MatchingGetter(ItemsGetter, FooClass, "Title") == None;
  }

  /** Of the two candidates in the group, only `Title`, which has no getter, is an orphan. */
  lemma TitleIsTheOnlyOrphan()
    ensures Collected(TitleItemsGroup) == map[Title := 126, Items := 126]
    ensures Orphans(ItemsGetter, Collected(TitleItemsGroup)) == {Title}
    ensures OrphanWarning(Title, 126) == Warning(126, "Corresponding getter not found for key 'title'")
  {
    TitleItemsCollected();
    TitleUnsatisfiedItemsSatisfied();
    assert Title.name[..|Prefix|] == Prefix && Items.name[..|Prefix|] == Prefix;
    assert LowercaseKey("Title") == "title";
    assert Message("title") == "Corresponding getter not found for key 'title'";
  }

  /** One group handled by the consumer: the candidate without a getter is the one reported. */
  method OneOrphanOneSatisfied()
  {
    var consumer := new OrphanedKeyPathCheckingConsumer();
    var proceed := consumer.HandleTopLevelDecl(TitleItemsGroup);
    assert proceed;
    TitleIsTheOnlyOrphan();
    assert consumer.affectingSelectorToLocation == Collected(TitleItemsGroup);
    var diagnostics, emitters := consumer.HandleTranslationUnit(ItemsGetter);
    assert |diagnostics| == 1 && emitters[0] == Title;
    assert diagnostics == [Warning(126, "Corresponding getter not found for key 'title'")];
  }
}

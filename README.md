# Orphaned `keyPathsForValuesAffecting<Key>` check, modelled in Dafny

This project models the decision logic of a clang plugin that warns about
orphaned dependent-key declarations in Objective-C. An orphaned declaration is a
class method `+keyPathsForValuesAffecting<Key>` whose class has no getter for
`<Key>`.

The plugin's AST consumer works in two passes.

- **Collection** (`HandleTopLevelDecl`). For every top-level declaration group,
  the consumer records each zero-argument *class* method whose name is strictly
  longer than the case-sensitive prefix `keyPathsForValuesAffecting` and begins
  with it. The map `affectingSelectorToLocation` is keyed by the method
  declaration. Each entry holds the selector start advanced past the prefix
  (26 characters), so a warning points at the key.
- **Resolution** (`HandleTranslationUnit`). Once per translation unit, each
  recorded candidate's key is the name with the prefix removed. Four getter
  names are tried in order:
  1. the key itself;
  2. the key with its first character lowercased;
  3. `"is" + key`;
  4. `"countOf" + key`.

  The first hit ends the search. If none is found, one warning
  `Corresponding getter not found for key '<lowercased key>'` is reported at the
  candidate's anchor.

Files:

- `KeyPaths.dfy` (module `KeyPaths`) holds the pure logic.
  - Declarations are a datatype: `MethodDecl` has an identity, an argument
    count, a class-method flag, a name, a class id and a selector-start offset.
    `Decl` is either a method or any other declaration.
  - The collector's filter is `IsAffectingDecl`, and its anchor is `Anchor`.
    `Collected` is the map a group records.
  - Key derivation is `KeyOf` and `LowercaseKey`.
  - Getter lookup: `classHasGetter` becomes `HasGetter`, a membership test in a
    per-class table of getter names. `GetterNames` lists the four names in
    order. `MatchingGetter` is the chain of lookups. `Satisfied` is the
    reference definition "some one of the four names is a getter".
  - The per-candidate decision is `Resolve`. The warning text is `Message`.
    `Orphans` is the set of unsatisfied candidates.
- `Consumer.dfy` (module `Consumer`) holds the class
  `OrphanedKeyPathCheckingConsumer`.
  - Its field `affectingSelectorToLocation` is updated by the collection loop in
    `HandleTopLevelDecl`.
  - `HandleTranslationUnit` loops over the recorded candidates and returns the
    warnings it reports.
- `Scenarios.dfy` (module `Scenarios`) proves what the model yields on concrete
  declarations.

Points about the code that shape the model:

- No set of getters is collected. `classHasGetter`
  (`OrphanedKeyPathsAffecting.cpp:76-81`) asks clang for an instance or private
  method of the candidate's class (`lookupInstanceMethod` /
  `lookupPrivateMethod`). The model takes that answer as a getter table given to
  `HandleTranslationUnit`.
- Candidates are keyed by method declaration
  (`OrphanedKeyPathsAffecting.cpp:38,74`), so the model's map is keyed by
  `MethodDecl`, which carries an identity.
- Only the first character of the key is lowercased
  (`OrphanedKeyPathsAffecting.cpp:55-56`). So key `URL` is reported as `'uRL'`,
  and a getter `url` does not satisfy it
  (`Scenarios.AcronymKeyLowercasesFirstCharacterOnly`).
- The map is walked in its own order, which is pointer order
  (`OrphanedKeyPathsAffecting.cpp:48`). The model states the set of warnings and
  their one-to-one correspondence with orphaned candidates, not their order.

`HandleTranslationUnit` modifies nothing, and its postcondition fixes which
warnings it reports. So two runs on the same state report the same warnings.

## Model

| member | source | states |
|---|---|---|
| `KeyPaths.CollectedExactly` | OrphanedKeyPathsAffecting.cpp:30-38 | a method is recorded iff it occurs in the group, has zero arguments, is a class method, has a name strictly longer than the prefix and begins with it; its recorded anchor is its selector start plus 26 |
| `KeyPaths.NeverRecorded` | OrphanedKeyPathsAffecting.cpp:31-38 | instance methods, methods with arguments, and names that are not the prefix followed by at least one character are never recorded, in any group |
| `KeyPaths.CollectedAppend` | OrphanedKeyPathsAffecting.cpp:27-42 | handling two declaration groups one after the other records the same map as handling their concatenation |
| `KeyPaths.CollectedWellRecorded` | OrphanedKeyPathsAffecting.cpp:36-38 | every entry a group records passed the filter and carries its own anchor |
| `KeyPaths.KeyOf` | OrphanedKeyPathsAffecting.cpp:50 | the key is the name minus its first 26 characters: prefix part followed by the key gives the name back |
| `KeyPaths.CandidateKey` | OrphanedKeyPathsAffecting.cpp:36-50 | for a recorded candidate the key is non-empty, prefix plus key is the name, and the anchor offset indexes the key's first character |
| `KeyPaths.ToLowerAscii` | OrphanedKeyPathsAffecting.cpp:56 | the result is never an upper-case ASCII letter; upper-case letters map to their lower-case partner, everything else is unchanged |
| `KeyPaths.LowercaseKey` | OrphanedKeyPathsAffecting.cpp:55-56 | the lowercase key has the key's length, its first character is the lowercased first character of the key, and every other character is the key's |
| `KeyPaths.LowercaseKeyIdempotent` | OrphanedKeyPathsAffecting.cpp:55-56 | lowercasing the key a second time changes nothing |
| `KeyPaths.LowercaseKeyUnchanged` | OrphanedKeyPathsAffecting.cpp:53-58 | a key that does not begin with an upper-case letter is its own lowercase form, so the first two names tried coincide |
| `KeyPaths.HasGetter` | OrphanedKeyPathsAffecting.cpp:76-81 | a class has a getter named n iff the table lists the class and n is in its set; a class missing from the table has none |
| `KeyPaths.MatchingGetter` | OrphanedKeyPathsAffecting.cpp:53-62 | the lookups return the position, in the order key, lowercase key, is+key, countOf+key, of the first name the class has as a getter, with no earlier name a getter; they return none exactly when no name of the four is a getter |
| `KeyPaths.CapitalisedForms` | OrphanedKeyPathsAffecting.cpp:59-61 | the is and countOf forms come from the key as written: for a key beginning with an upper-case letter, is+lowercase key and countOf+lowercase key are never among the names tried |
| `KeyPaths.MessageNamesKey` | OrphanedKeyPathsAffecting.cpp:66 | the warning text quotes the key between the fixed lead and a closing quote, so distinct keys give distinct messages |
| `KeyPaths.Resolve` | OrphanedKeyPathsAffecting.cpp:49-67 | a candidate yields no warning iff its class has a getter named key, lowercase key, is+key or countOf+key; otherwise exactly the warning naming the lowercase key at the candidate's anchor |
| `Consumer.OrphanedKeyPathCheckingConsumer.constructor` | OrphanedKeyPathsAffecting.cpp:21-25 | a new consumer has recorded nothing |
| `Consumer.OrphanedKeyPathCheckingConsumer.HandleTopLevelDecl` | OrphanedKeyPathsAffecting.cpp:27-42 | the map becomes the old map updated with exactly what the group records; every entry stays a filtered candidate with its anchor; the handler always returns true and reports nothing |
| `Consumer.OrphanedKeyPathCheckingConsumer.HandleTranslationUnit` | OrphanedKeyPathsAffecting.cpp:44-69 | one warning per orphaned candidate and none for a satisfied one: the warnings correspond one to one with the distinct orphaned candidates, each being that candidate's warning at its recorded anchor |
| `Scenarios.NamesTriedForFoo` | OrphanedKeyPathsAffecting.cpp:53-62 | for key Foo the names tried are Foo, foo, isFoo, countOfFoo, in that order |
| `Scenarios.LowerCamelGetterSatisfies` | OrphanedKeyPathsAffecting.cpp:55-58 | keyPathsForValuesAffectingFullName is a candidate, and a getter fullName satisfies it as the second name tried |
| `Scenarios.AcronymKeyLowercasesFirstCharacterOnly` | OrphanedKeyPathsAffecting.cpp:53-67 | keyPathsForValuesAffectingURL with only a getter url is orphaned; the warning at offset 126 names 'uRL' |
| `Scenarios.BooleanGetterSatisfies` | OrphanedKeyPathsAffecting.cpp:59-60 | key IsValid is satisfied by isIsValid, the third name tried |
| `Scenarios.CountGetterSatisfies` | OrphanedKeyPathsAffecting.cpp:61-62 | key Items is satisfied by countOfItems, the fourth name tried |
| `Scenarios.NonCandidatesNotRecorded` | OrphanedKeyPathsAffecting.cpp:31-37 | a one-argument method, an instance method, a name with a capital K, a name equal to the prefix and a non-method declaration record nothing |
| `Scenarios.TitleIsTheOnlyOrphan` | OrphanedKeyPathsAffecting.cpp:30-67 | of the candidates Title and Items, with only a getter items, only Title is orphaned, and its warning names 'title' |

## Left out

- Plugin registration with its name and description strings, and `ParseArgs`: host glue with no decision logic.
- `CreateASTConsumer`'s choice between the checking consumer and `NullConsumer` by language dialect. It only decides whether the check runs, and the model starts from a checking consumer.
- clang's `lookupInstanceMethod` and `lookupPrivateMethod` (superclass traversal, methods only in the implementation). These are calls into clang. The model replaces them with a table of getter names per class. A class missing from the table has no getters.
- `getClassInterface`: each method carries the id of its class. A declaration without a class interface is not modelled.
- `DiagnosticsEngine`, `FullSourceLoc` and `SourceManager`. Reporting a warning is modelled as returning a `Warning(position, message)` value, and source locations are integer offsets.
- The selector lookup with an empty identifier at the start of `HandleTranslationUnit`. It has no effect on the outcome.
- `tolower` is modelled as ASCII lowercasing of one character. This is its behaviour in the C locale; other locales are not modelled.
- Names are sequences of characters, not bytes. Length comparisons and offsets agree with the byte view for the ASCII prefix and for ASCII names.
- Consumer.OrphanedKeyPathCheckingConsumer.HandleTranslationUnit: does not state the order of the warnings, because the code walks its map in pointer order, which carries no meaning.

/**
 * The `import` command: the active editor's JSON is read as a rule list, each
 * element's missing or falsy properties are filled with defaults, and the list
 * is posted to the panel. Also the `save` export it is meant to read back.
 */
module ImportRules {
  import opened Wrappers
  import opened JsValues
  import opened Records
  import Replacers

  const NoEditorWarning: string := "No active text editor."
  const NotArrayWarning: string :=
    "The active text editor does not contain a valid multichange description - not an array of changes"

  datatype ImportOutcome =
    | Ignored                          // no panel view yet: nothing happens
    | Warning(message: string)         // a warning is shown, nothing is posted
    | Threw                            // an element is null: reading its property throws, nothing is posted
    | Posted(changes: seq<ChangeRecord>)  // the `import` message the panel receives

  /** The map callback: each property is `item.property || default`. */
  function Normalise(item: JsValue): (r: Option<ChangeRecord>)
    ensures r.None? <==> item.Null? || item.Undefined?
    ensures r.Some? ==> forall f: Field ::
      (Truthy(Property(item, f)) ==> r.value.Get(f) == Property(item, f)) &&
      (!Truthy(Property(item, f)) ==> r.value.Get(f) == f.Default())
  {
    if item.Null? || item.Undefined? then None
    else
      Some(ChangeRecord(
        Or(Property(item, Matcher), Matcher.Default()),
        Or(Property(item, Resolver), Resolver.Default()),
        Or(Property(item, IsCaseSensitive), IsCaseSensitive.Default()),
        Or(Property(item, IsWholeWords), IsWholeWords.Default()),
        Or(Property(item, IsUsingRegEx), IsUsingRegEx.Default())))
  }

  /** `rawchanges.map(...)`: all elements normalised in order, unless one throws. */
  function NormaliseAll(items: seq<JsValue>): (r: Option<seq<ChangeRecord>>)
    ensures r.None? <==> exists k :: 0 <= k < |items| && (items[k].Null? || items[k].Undefined?)
    ensures r.Some? ==> |r.value| == |items| && forall k :: 0 <= k < |items| ==> Normalise(items[k]) == Some(r.value[k])
  {
    if items == [] then Some([])
    else
      match Normalise(items[0])
      case None => None
      case Some(c) =>
        match NormaliseAll(items[1..])
        case None => None
        case Some(cs) => Some([c] + cs)
  }

  /**
   * `import()`: `hasView` says whether the panel has been resolved, `editor` is
   * the parsed text of the active editor, None when there is no active editor.
   */
  function HandleImport(hasView: bool, editor: Option<JsValue>): (r: ImportOutcome)
    ensures !hasView <==> r.Ignored?
    ensures hasView && editor.None? ==> r == Warning(NoEditorWarning)
    ensures hasView && editor.Some? && !editor.value.Arr? ==> r == Warning(NotArrayWarning)
    ensures r.Posted? ==> hasView && editor.Some? && editor.value.Arr?
    ensures r.Posted? ==> |r.changes| == |editor.value.items|
    ensures r.Posted? ==>
      forall k :: 0 <= k < |r.changes| ==> Normalise(editor.value.items[k]) == Some(r.changes[k])
    ensures hasView && editor.Some? && editor.value.Arr? ==>
      (r.Posted? <==> forall k :: 0 <= k < |editor.value.items| ==> !editor.value.items[k].Null? && !editor.value.items[k].Undefined?)
    ensures hasView && editor.Some? && editor.value.Arr? && !r.Posted? ==> r == Threw
  {
    if !hasView then Ignored
    else if editor.None? then Warning(NoEditorWarning)
    else if !editor.value.Arr? then Warning(NotArrayWarning)
    else
      match NormaliseAll(editor.value.items)
      case None => Threw
      case Some(cs) => Posted(cs)
  }

  /** Every property of an imported record is truthy or its default: never undefined. */
  ghost predicate IsNormal(r: ChangeRecord) {
    forall f: Field :: Truthy(r.Get(f)) || r.Get(f) == f.Default()
  }

  /** What a lenient import makes of a record: each falsy property replaced by its default. */
  function Canonical(r: ChangeRecord): ChangeRecord {
    ChangeRecord(
      Or(r.matcher, Matcher.Default()),
      Or(r.resolver, Resolver.Default()),
      Or(r.isCaseSensitive, IsCaseSensitive.Default()),
      Or(r.isWholeWords, IsWholeWords.Default()),
      Or(r.isUsingRegEx, IsUsingRegEx.Default()))
  }

  /** `_handleSave`: the rule list as the saved JSON document. */
  function Export(rs: seq<ChangeRecord>): (v: JsValue)
    ensures v.Arr? && |v.items| == |rs|
    ensures forall k :: 0 <= k < |rs| ==> v.items[k] == ToJson(rs[k])
  {
    Arr(seq(|rs|, k requires 0 <= k < |rs| => ToJson(rs[k])))
  }

  /** Importing a saved record gives its canonical form, which is normal. */
  lemma NormaliseToJson(r: ChangeRecord)
    ensures Normalise(ToJson(r)) == Some(Canonical(r))
    ensures IsNormal(Canonical(r))
    ensures IsNormal(r) ==> Canonical(r) == r
  {
    forall f: Field ensures Property(ToJson(r), f) == r.Get(f) {
      ToJsonReadBack(r, f);
    }
    var c := Canonical(r);
    assert forall f: Field :: c.Get(f) == Or(r.Get(f), f.Default());
  }

  /** Normalising is idempotent: importing, saving and importing again changes nothing. */
  lemma NormaliseIdempotent(item: JsValue)
    requires !item.Null? && !item.Undefined?
    ensures IsNormal(Normalise(item).value)
    ensures Normalise(ToJson(Normalise(item).value)) == Normalise(item)
  {
    var r := Normalise(item).value;
    assert forall f: Field :: Truthy(r.Get(f)) || r.Get(f) == f.Default();
    NormaliseToJson(r);
  }

  /** Saving a rule list and importing the saved JSON posts the canonical form of each rule, in order. */
  lemma ExportImportRoundTrip(rs: seq<ChangeRecord>)
    ensures HandleImport(true, Some(Export(rs))).Posted?
    ensures |HandleImport(true, Some(Export(rs))).changes| == |rs|
    ensures forall k :: 0 <= k < |rs| ==> HandleImport(true, Some(Export(rs))).changes[k] == Canonical(rs[k])
    ensures (forall k :: 0 <= k < |rs| ==> IsNormal(rs[k])) ==> HandleImport(true, Some(Export(rs))) == Posted(rs)
  {
    var v := Export(rs);
    forall k | 0 <= k < |rs| ensures Normalise(v.items[k]) == Some(Canonical(rs[k])) {
      NormaliseToJson(rs[k]);
    }
    var r := HandleImport(true, Some(v));
    if forall k :: 0 <= k < |rs| ==> IsNormal(rs[k]) {
      forall k | 0 <= k < |rs| ensures r.changes[k] == rs[k] {
        NormaliseToJson(rs[k]);
      }
      assert r.changes == rs;
    }
  }

  /** The record of a change of the host's declared type. */
  function FromChange(c: Replacers.Change): ChangeRecord {
    ChangeRecord(Str(c.matcher), Str(c.resolver), Bool(c.isCaseSensitive), Bool(c.isWholeWords), Bool(c.isUsingRegEx))
  }

  /** A rule list of the declared type survives save and import unchanged: same fields, same order. */
  lemma TypedRoundTrip(cs: seq<Replacers.Change>)
    ensures HandleImport(true, Some(Export(seq(|cs|, k requires 0 <= k < |cs| => FromChange(cs[k]))))) ==
      Posted(seq(|cs|, k requires 0 <= k < |cs| => FromChange(cs[k])))
  {
    var rs := seq(|cs|, k requires 0 <= k < |cs| => FromChange(cs[k]));
    forall k | 0 <= k < |rs| ensures IsNormal(rs[k]) {
      assert forall f: Field :: Truthy(rs[k].Get(f)) || rs[k].Get(f) == f.Default();
    }
    ExportImportRoundTrip(rs);
  }
}

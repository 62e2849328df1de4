/**
 * Batch application (`_handleTransform`): the replacers are applied one after
 * the other to a document's full text, and the result overwrites the document.
 */
module Transform {
  import opened Wrappers
  import opened Replacers

  /**
   * The ECMAScript regular-expression engine, left abstract: whether
   * `new RegExp(pattern, flags)` succeeds, and what
   * `text.replace(new RegExp(pattern, flags), template)` returns
   * (String.prototype.replace, section 22.1.3 of ECMA-262).
   */
  datatype Engine = Engine(
    compiles: (string, string) -> bool,
    replace: (string, string, string, string) -> string)

  /** The SyntaxError that `new RegExp` throws for a pattern it cannot parse. */
  datatype Error = InvalidPattern(pattern: string, flags: string)

  const NoActiveEditorWarning: string := "No active text editor"

  /** One replacer called on a text; the RegExp is built at that moment. */
  function Apply(e: Engine, r: Replacer, text: string): Result<string, Error> {
    if e.compiles(r.pattern, r.flags) then Success(e.replace(r.pattern, r.flags, r.template, text))
    else Failure(InvalidPattern(r.pattern, r.flags))
  }

  /** `for (const replacer of replacers) text = replacer(text)`, a thrown error ending it. */
  function Fold(e: Engine, rs: seq<Replacer>, text: string): Result<string, Error> {
    if rs == [] then Success(text)
    else
      match Apply(e, rs[0], text)
      case Success(t) => Fold(e, rs[1..], t)
      case Failure(err) => Failure(err)
  }

  /** `rs.reduce((t, fn) => fn(t), text)`: the last replacer applied to the fold of the others. */
  function Reduce(e: Engine, rs: seq<Replacer>, text: string): Result<string, Error> {
    if rs == [] then Success(text)
    else
      match Reduce(e, rs[..|rs| - 1], text)
      case Success(t) => Apply(e, rs[|rs| - 1], t)
      case Failure(err) => Failure(err)
  }

  /** The first replacer, in list order, whose pattern the engine rejects. */
  function FirstInvalid(e: Engine, rs: seq<Replacer>): Option<Error> {
    if rs == [] then None
    else if !e.compiles(rs[0].pattern, rs[0].flags) then Some(InvalidPattern(rs[0].pattern, rs[0].flags))
    else FirstInvalid(e, rs[1..])
  }

  /** An empty rule list leaves the text as it is. */
  lemma FoldEmpty(e: Engine, text: string)
    ensures Fold(e, GetReplacers([]), text) == Success(text)
  {
  }

  /** Folding a + b is folding b over the result of folding a. */
  lemma {:induction false} FoldAppend(e: Engine, a: seq<Replacer>, b: seq<Replacer>, text: string)
    ensures Fold(e, a + b, text) ==
      match Fold(e, a, text)
      case Success(t) => Fold(e, b, t)
      case Failure(err) => Failure(err)
  {
    if a == [] {
      assert a + b == b;
    } else {
      assert (a + b)[0] == a[0];
      assert (a + b)[1..] == a[1..] + b;
      match Apply(e, a[0], text)
      case Success(t) => FoldAppend(e, a[1..], b, t);
      case Failure(_) =>
    }
  }

  /** The loop and the left fold (`reduce`) agree on every list and every text. */
  lemma {:induction false} FoldIsReduce(e: Engine, rs: seq<Replacer>, text: string)
    ensures Fold(e, rs, text) == Reduce(e, rs, text)
    decreases |rs|
  {
    if rs != [] {
      var init, last := rs[..|rs| - 1], rs[|rs| - 1];
      assert rs == init + [last];
      FoldAppend(e, init, [last], text);
      FoldIsReduce(e, init, text);
      match Fold(e, init, text)
      case Success(t) =>
        assert [last][1..] == [];
        assert Fold(e, [last], t) == Apply(e, last, t);
      case Failure(_) =>
    }
  }

  /**
   * The fold throws exactly when some pattern is invalid, with the error of the
   * first invalid one, whatever the text: no rule is skipped.
   */
  lemma {:induction false} FoldFailsOnFirstInvalid(e: Engine, rs: seq<Replacer>, text: string)
    ensures Fold(e, rs, text).Failure? <==> FirstInvalid(e, rs).Some?
    ensures Fold(e, rs, text).Failure? ==> Fold(e, rs, text).error == FirstInvalid(e, rs).value
  {
    if rs != [] && e.compiles(rs[0].pattern, rs[0].flags) {
      FoldFailsOnFirstInvalid(e, rs[1..], e.replace(rs[0].pattern, rs[0].flags, rs[0].template, text));
    }
  }

  /** The inner loop of _handleTransform over one text. */
  method RunReplacers(e: Engine, replacers: seq<Replacer>, text: string) returns (r: Result<string, Error>)
    ensures r == Fold(e, replacers, text)
  {
    var t := text;
    var i := 0;
    while i < |replacers|
      invariant 0 <= i <= |replacers|
      invariant Fold(e, replacers, text) == Fold(e, replacers[i..], t)
    {
      assert replacers[i..][0] == replacers[i];
      assert replacers[i..][1..] == replacers[i + 1..];
      var step := Apply(e, replacers[i], t);
      if step.Failure? {
        return Failure(step.error);
      }
      t := step.value;
      i := i + 1;
    }
    return Success(t);
  }

  /**
   * The multi-editor loop: every document is folded from its own text with the
   * same replacers, and its new text is written. A thrown error ends the loop;
   * since it happens on the first document if at all, nothing is then written.
   */
  method TransformDocuments(e: Engine, replacers: seq<Replacer>, documents: seq<string>)
    returns (written: seq<string>, failure: Option<Error>)
    ensures failure.None? ==> |written| == |documents|
    ensures failure.None? ==>
      forall k :: 0 <= k < |documents| ==> Fold(e, replacers, documents[k]) == Success(written[k])
    ensures failure.Some? ==> written == [] && |documents| > 0 && failure == FirstInvalid(e, replacers)
  {
    written := [];
    failure := None;
    var i := 0;
    while i < |documents|
      invariant 0 <= i <= |documents| && |written| == i
      invariant forall k :: 0 <= k < i ==> Fold(e, replacers, documents[k]) == Success(written[k])
      invariant i > 0 ==> FirstInvalid(e, replacers).None?
    {
      var r := RunReplacers(e, replacers, documents[i]);
      FoldFailsOnFirstInvalid(e, replacers, documents[i]);
      if r.Failure? {
        failure := Some(r.error);
        return;
      }
      written := written + [r.value];
      i := i + 1;
    }
  }

  datatype Outcome =
    | Warning(message: string)
    | Rewritten(texts: seq<string>)
    | Threw(error: Error)

  /**
   * `_handleTransform(changes, multiEditor)`. `documents` are the texts of the
   * open documents, `active` the text of the active editor if there is one.
   * Rewritten(texts) lists the new full text of each document written, in order.
   */
  method HandleTransform(
    e: Engine, changes: seq<Change>, multiEditor: bool, documents: seq<string>, active: Option<string>)
    returns (o: Outcome)
    ensures multiEditor && FirstInvalid(e, GetReplacers(changes)).None? ==>
      o.Rewritten? && |o.texts| == |documents| &&
      forall k :: 0 <= k < |documents| ==> Fold(e, GetReplacers(changes), documents[k]) == Success(o.texts[k])
    ensures multiEditor && FirstInvalid(e, GetReplacers(changes)).Some? ==>
      o == if documents == [] then Rewritten([]) else Threw(FirstInvalid(e, GetReplacers(changes)).value)
    ensures !multiEditor && active.None? ==> o == Warning(NoActiveEditorWarning)
    ensures !multiEditor && active.Some? ==>
      o == match Fold(e, GetReplacers(changes), active.value)
           case Success(t) => Rewritten([t])
           case Failure(err) => Threw(err)
  {
    if multiEditor {
      var replacers := GetReplacers(changes);
      var written, failure := TransformDocuments(e, replacers, documents);
      if failure.Some? {
        o := Threw(failure.value);
      } else {
        if documents != [] {
          FoldFailsOnFirstInvalid(e, replacers, documents[0]);
        }
        assert documents == [] ==> written == [];
        o := Rewritten(written);
      }
    } else {
      if active.None? {
        return Warning(NoActiveEditorWarning);
      }
      var replacers := GetReplacers(changes);
      var r := RunReplacers(e, replacers, active.value);
      if r.Failure? {
        o := Threw(r.error);
      } else {
        o := Rewritten([r.value]);
      }
    }
  }
}

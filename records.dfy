/**
 * A change record as the panel script holds it: a plain object whose five
 * properties may be missing (`{}` right after "add change") or hold any value
 * an import let through.
 */
module Records {
  import opened JsValues

  /** The five properties of a change. */
  datatype Field = Matcher | Resolver | IsCaseSensitive | IsWholeWords | IsUsingRegEx {
    /** The property name used in JSON and in the script. */
    function Key(): string {
      match this
      case Matcher => "matcher"
      case Resolver => "resolver"
      case IsCaseSensitive => "isCaseSensitive"
      case IsWholeWords => "isWholeWords"
      case IsUsingRegEx => "isUsingRegEx"
    }

    /** The value an import puts in place of a falsy property. */
    function Default(): JsValue {
      if this == Matcher || this == Resolver then Str("") else Bool(false)
    }
  }

  datatype ChangeRecord = ChangeRecord(
    matcher: JsValue,
    resolver: JsValue,
    isCaseSensitive: JsValue,
    isWholeWords: JsValue,
    isUsingRegEx: JsValue)
  {
    /** `record[property]` */
    function Get(f: Field): JsValue {
      match f
      case Matcher => matcher
      case Resolver => resolver
      case IsCaseSensitive => isCaseSensitive
      case IsWholeWords => isWholeWords
      case IsUsingRegEx => isUsingRegEx
    }

    /** `record[property] = v`: that property becomes v and every other keeps its value. */
    function Set(f: Field, v: JsValue): (r: ChangeRecord)
      ensures r.Get(f) == v
      ensures forall g: Field :: g != f ==> r.Get(g) == Get(g)
    {
      match f
      case Matcher => this.(matcher := v)
      case Resolver => this.(resolver := v)
      case IsCaseSensitive => this.(isCaseSensitive := v)
      case IsWholeWords => this.(isWholeWords := v)
      case IsUsingRegEx => this.(isUsingRegEx := v)
    }
  }

  /** The object literal `{}`: every property reads as undefined. */
  const EmptyRecord := ChangeRecord(Undefined, Undefined, Undefined, Undefined, Undefined)

  /**
   * `v.matcher` and the like on a parsed JSON value. Reading a property of null
   * or undefined throws; a primitive or an array has none of these five properties.
   */
  function Property(v: JsValue, f: Field): JsValue
    requires !v.Null? && !v.Undefined?
  {
    match v
    case Obj(m) => if f.Key() in m then m[f.Key()] else Undefined
    case _ => Undefined
  }

  /** JSON.stringify leaves out a property whose value is undefined. */
  function PutDefined(m: map<string, JsValue>, k: string, v: JsValue): map<string, JsValue> {
    if v.Undefined? then m else m[k := v]
  }

  /** A record as JSON.stringify followed by JSON.parse gives it back. */
  function ToJson(r: ChangeRecord): JsValue {
    Obj(PutDefined(PutDefined(PutDefined(PutDefined(PutDefined(map[],
      Matcher.Key(), r.matcher),
      Resolver.Key(), r.resolver),
      IsCaseSensitive.Key(), r.isCaseSensitive),
      IsWholeWords.Key(), r.isWholeWords),
      IsUsingRegEx.Key(), r.isUsingRegEx))
  }

  /** Serialising a record and reading one of its properties back gives that property's value. */
  lemma ToJsonReadBack(r: ChangeRecord, f: Field)
    ensures Property(ToJson(r), f) == r.Get(f)
  {
    assert "isWholeWords"[2] != "isUsingRegEx"[2];
  }
}

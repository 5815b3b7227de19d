/** The option type used for partial decoders. */
module Wrappers {
  datatype Option<T> = None | Some(value: T)
}

/** The closed set of thread-model kinds and the text each one is shown as. */
module ThreadModelKinds {
  import opened Wrappers

  /** Equality is structural: two kinds are equal exactly when they are the same variant. */
  datatype ThreadModelKind = ManyToMany | ManyToOne | OneToOne

  /** The `Display` implementation of `ThreadModelKind`. */
  function Display(k: ThreadModelKind): (s: string)
    ensures k.ManyToMany? <==> s == "Many to Many"
    ensures k.ManyToOne? <==> s == "Many to One"
    ensures k.OneToOne? <==> s == "One to One"
  {
    match k
    case ManyToMany => "Many to Many"
    case ManyToOne => "Many to One"
    case OneToOne => "One to One"
  }

  /** Reads a kind back from its displayed text; any other text names no kind. */
  function Parse(s: string): (r: Option<ThreadModelKind>)
    ensures r.Some? ==> Display(r.value) == s
  {
    if s == "Many to Many" then Some(ManyToMany)
    else if s == "Many to One" then Some(ManyToOne)
    else if s == "One to One" then Some(OneToOne)
    else None
  }

  /** Displaying a kind and reading the text back gives the same kind. */
  lemma ParseDisplay(k: ThreadModelKind)
    ensures Parse(Display(k)) == Some(k)
  {
  }

  /** A text is the display of a kind exactly when reading it back gives that kind. */
  lemma DisplayParse(k: ThreadModelKind, s: string)
    ensures Display(k) == s <==> Parse(s) == Some(k)
  {
  }

  /** `Display` is injective: different kinds are shown as different text. */
  lemma DisplayInjective(a: ThreadModelKind, b: ThreadModelKind)
    ensures Display(a) == Display(b) <==> a == b
  {
  }

  /** The derived `PartialEq`: equal exactly when both are the same variant. */
  lemma KindEquality(a: ThreadModelKind, b: ThreadModelKind)
    ensures a == b <==>
      (a.ManyToMany? && b.ManyToMany?) || (a.ManyToOne? && b.ManyToOne?) || (a.OneToOne? && b.OneToOne?)
  {
  }
}

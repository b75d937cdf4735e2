/**
  The raw material the command line hands to the core: free words, which
  are classified by their leading sigil, and the value of an option that
  may carry an argument (getopts' `optflagopt`).
 */
module CommandLine {
  import opened Wrappers

  /** Rust's `str::strip_prefix`: what follows `p` in `s`, when `s` starts with `p`. */
  function StripPrefix(s: string, p: string): (r: Option<string>)
    ensures r.Some? <==> p <= s
    ensures r.Some? ==> s == p + r.value
  {
    if p <= s then Some(s[|p|..]) else None
  }

  const FolderSigil := "@"
  const TitleSigil := "^"
  const TagSigil := "::"
  const DescriptionSigil := "%"

  /** The role a free word plays in a save request, with the text it contributes. */
  datatype Word =
    | FolderWord(folder: string)
    | TitleWord(title: string)
    | TagWord(tag: string)
    | DescriptionWord(description: string)
    | ContentWord(text: string)

  /** Does `w` start with none of the four sigils? */
  predicate Plain(w: string)
  {
    !(FolderSigil <= w) && !(TitleSigil <= w) && !(TagSigil <= w) && !(DescriptionSigil <= w)
  }

  /**
    Classifies one free word. The sigils are tried in the fixed order
    `@`, `^`, `::`, `%`; the first that matches decides, and a word that
    matches none is content.
   */
  function Classify(w: string): (c: Word)
    ensures c.FolderWord? <==> FolderSigil <= w
    ensures c.TitleWord? <==> !(FolderSigil <= w) && TitleSigil <= w
    ensures c.TagWord? <==> !(FolderSigil <= w) && !(TitleSigil <= w) && TagSigil <= w
    ensures c.DescriptionWord? <==>
              !(FolderSigil <= w) && !(TitleSigil <= w) && !(TagSigil <= w) && DescriptionSigil <= w
    ensures c.ContentWord? <==> Plain(w)
    ensures Spell(c) == w
    ensures c.FolderWord? ==> c.folder == w[1..]
    ensures c.TitleWord? ==> c.title == w[1..]
    ensures c.TagWord? ==> c.tag == w[2..]
    ensures c.DescriptionWord? ==> c.description == w[1..]
  {
    var folder := StripPrefix(w, FolderSigil);
    if folder.Some? then FolderWord(folder.value)
    else
      var title := StripPrefix(w, TitleSigil);
      if title.Some? then TitleWord(title.value)
      else
        var tag := StripPrefix(w, TagSigil);
        if tag.Some? then TagWord(tag.value)
        else
          var description := StripPrefix(w, DescriptionSigil);
          if description.Some? then DescriptionWord(description.value)
          else ContentWord(w)
  }

  /** The word a classification was read from: its sigil followed by its text. */
  function Spell(c: Word): string
  {
    match c
    case FolderWord(x) => FolderSigil + x
    case TitleWord(x) => TitleSigil + x
    case TagWord(x) => TagSigil + x
    case DescriptionWord(x) => DescriptionSigil + x
    case ContentWord(x) => x
  }

  /** A classification some word can have: content never starts with a sigil. */
  predicate Canonical(c: Word)
  {
    c.ContentWord? ==> Plain(c.text)
  }

  /**
    Spelling a classification and classifying it again gives it back, for
    every classification a word can have. Together with `Classify`'s
    `Spell(c) == w`, the two are inverse bijections. In particular, the
    text after a sigil is taken verbatim, even when it starts with another
    sigil: `@^x` is the folder `^x` and `^::x` the title `::x`.
   */
  lemma ClassifySpell(c: Word)
    requires Canonical(c)
    ensures Classify(Spell(c)) == c
  {
    var w := Spell(c);
    match c
    case FolderWord(x) =>
    case TitleWord(x) =>
      assert w[0] == '^';
    case TagWord(x) =>
      assert w[0] == ':';
    case DescriptionWord(x) =>
      assert w[0] == '%';
    case ContentWord(x) =>
  }

  /**
    The value of an option declared with getopts' `optflagopt`: not given,
    given without an argument, or given with one.
   */
  datatype FlagOpt = Absent | NoValue | Value(value: string)
}

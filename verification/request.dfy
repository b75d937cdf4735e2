/**
  `build_request`: a left-to-right fold over the free words into a
  `CuboxRequest`, followed by the `--url` override and the final
  emptiness check.
 */
module Request {
  import opened Wrappers
  import opened CommandLine

  /** The request's `type` field: `"memo"` or `"url"`. */
  datatype Kind = Memo | Url

  datatype CuboxRequest = CuboxRequest(
    kind: Kind,
    content: string,
    title: Option<string>,
    description: Option<string>,
    folder: Option<string>,
    tags: Option<seq<string>>)

  /** The request before any word is read. */
  const Blank := CuboxRequest(Memo, "", None, None, None, None)

  datatype BuildError = MissingUrl | NothingToSave

  /** The tags collected so far, `None` read as none. */
  function TagList(tags: Option<seq<string>>): seq<string>
  {
    if tags.Some? then tags.value else []
  }

  /**
    Reads one free word into the request. Each word changes exactly one
    field, chosen by the first sigil it carries in the order `@`, `^`,
    `::`, `%`; the other fields are left as they were.
   */
  function Step(r: CuboxRequest, w: string): (r': CuboxRequest)
    ensures FolderSigil <= w ==> r' == r.(folder := Some(w[1..]))
    ensures !(FolderSigil <= w) && TitleSigil <= w ==> r' == r.(title := Some(w[1..]))
    ensures !(FolderSigil <= w) && !(TitleSigil <= w) && TagSigil <= w ==>
              r' == r.(tags := Some(TagList(r.tags) + [w[2..]]))
    ensures !(FolderSigil <= w) && !(TitleSigil <= w) && !(TagSigil <= w) && DescriptionSigil <= w ==>
              r' == r.(description := Some(w[1..]))
    ensures Plain(w) ==> r' == r.(content := r.content + w + " ")
  {
    match Classify(w)
    case FolderWord(x) => r.(folder := Some(x))
    case TitleWord(x) => r.(title := Some(x))
    case TagWord(x) => r.(tags := Some(TagList(r.tags) + [x]))
    case DescriptionWord(x) => r.(description := Some(x))
    case ContentWord(_) => r.(content := r.content + w + " ")
  }

  /** The request after the words of `words`, read from first to last. */
  function Fold(words: seq<string>): (r: CuboxRequest)
    ensures r.kind == Memo
    ensures r.tags != Some([])
    decreases |words|
  {
    if words == [] then Blank
    else Step(Fold(words[..|words| - 1]), words[|words| - 1])
  }

  // ---------------------------------------------------------------------
  // Overwrite law: folder, title and description
  // ---------------------------------------------------------------------

  /** The three fields a word overwrites. */
  datatype Field = Folder | Title | Description

  function Get(r: CuboxRequest, f: Field): Option<string>
  {
    match f
    case Folder => r.folder
    case Title => r.title
    case Description => r.description
  }

  /** The value a classified word writes into field `f`, if it writes that field. */
  function Carried(c: Word, f: Field): Option<string>
  {
    match (c, f)
    case (FolderWord(x), Folder) => Some(x)
    case (TitleWord(x), Title) => Some(x)
    case (DescriptionWord(x), Description) => Some(x)
    case _ => None
  }

  /**
    `v` is what the last word of `words` that writes field `f` carries,
    or `None` if no word writes `f`.
   */
  ghost predicate LastWins(words: seq<string>, f: Field, v: Option<string>)
  {
    && (v.None? ==> forall i :: 0 <= i < |words| ==> Carried(Classify(words[i]), f).None?)
    && (v.Some? ==> exists i :: 0 <= i < |words| && LastWriter(words, f, i) && Carried(Classify(words[i]), f) == v)
  }

  /** Word `i` writes field `f` and no later word does. */
  ghost predicate LastWriter(words: seq<string>, f: Field, i: int)
    requires 0 <= i < |words|
  {
    && Carried(Classify(words[i]), f).Some?
    && forall j :: i < j < |words| ==> Carried(Classify(words[j]), f).None?
  }

  /** A word that does not write `f`, appended to `words`, keeps the last writer of `f`. */
  lemma LastWinsKeep(words: seq<string>, w: string, f: Field, v: Option<string>)
    requires LastWins(words, f, v)
    requires Carried(Classify(w), f).None?
    ensures LastWins(words + [w], f, v)
  {
    var ws := words + [w];
    assert forall i :: 0 <= i < |words| ==> ws[i] == words[i];
    if v.Some? {
      var i :| 0 <= i < |words| && LastWriter(words, f, i) && Carried(Classify(words[i]), f) == v;
      assert LastWriter(ws, f, i);
    }
  }

  /** A word that writes `f`, appended to `words`, becomes the last writer of `f`. */
  lemma LastWinsNew(words: seq<string>, w: string, f: Field)
    requires Carried(Classify(w), f).Some?
    ensures LastWins(words + [w], f, Carried(Classify(w), f))
  {
    var ws := words + [w];
    assert LastWriter(ws, f, |words|);
  }

  /** A word overwrites the field it carries and leaves the others alone. */
  lemma StepField(r: CuboxRequest, w: string, f: Field)
    ensures Carried(Classify(w), f).Some? ==> Get(Step(r, w), f) == Carried(Classify(w), f)
    ensures Carried(Classify(w), f).None? ==> Get(Step(r, w), f) == Get(r, f)
  {
  }

  /** After the fold, folder, title and description each hold the last value written to them. */
  lemma {:induction false} OverwriteLaw(words: seq<string>, f: Field)
    ensures LastWins(words, f, Get(Fold(words), f))
    decreases |words|
  {
    if words != [] {
      var n := |words| - 1;
      var init, w := words[..n], words[n];
      assert words == init + [w];
      OverwriteLaw(init, f);
      StepField(Fold(init), w, f);
      if Carried(Classify(w), f).Some? {
        LastWinsNew(init, w, f);
      } else {
        LastWinsKeep(init, w, f, Get(Fold(init), f));
      }
    }
  }

  // ---------------------------------------------------------------------
  // Append law (tags) and content concatenation
  // ---------------------------------------------------------------------

  /** Concatenates what `part` makes of each word, in order. */
  function FlatMap<T>(words: seq<string>, part: string -> seq<T>): seq<T>
  {
    if words == [] then [] else part(words[0]) + FlatMap(words[1..], part)
  }

  lemma {:induction false} FlatMapAppend<T>(a: seq<string>, b: seq<string>, part: string -> seq<T>)
    ensures FlatMap(a + b, part) == FlatMap(a, part) + FlatMap(b, part)
    decreases |a|
  {
    if a == [] {
      assert a + b == b;
    } else {
      assert (a + b)[0] == a[0];
      assert (a + b)[1..] == a[1..] + b;
      FlatMapAppend(a[1..], b, part);
    }
  }

  /** The tag a word contributes, if it is a `::` word. */
  function TagPart(w: string): seq<string>
  {
    if Classify(w).TagWord? then [Classify(w).tag] else []
  }

  /** The content a word contributes: itself and one space, if it carries no sigil. */
  function ContentPart(w: string): string
  {
    if Classify(w).ContentWord? then w + " " else ""
  }

  /** The tags of `words`: the text after `::` of every tag word, in order, duplicates kept. */
  function TagsOf(words: seq<string>): seq<string>
  {
    FlatMap(words, TagPart)
  }

  /** The memo text of `words`: every plain word followed by one space, in order. */
  function ContentOf(words: seq<string>): string
  {
    FlatMap(words, ContentPart)
  }

  /** `None` for no tags, otherwise the tags. */
  function TagsOption(tags: seq<string>): Option<seq<string>>
  {
    if tags == [] then None else Some(tags)
  }

  /** Tags accumulate in encounter order; the field stays `None` until the first `::` word. */
  lemma {:induction false} AppendLaw(words: seq<string>)
    ensures Fold(words).tags == TagsOption(TagsOf(words))
    decreases |words|
  {
    if words != [] {
      var n := |words| - 1;
      var init, w := words[..n], words[n];
      assert words == init + [w];
      AppendLaw(init);
      FlatMapAppend(init, [w], TagPart);
      if Classify(w).TagWord? {
        assert TagsOf(words) == TagsOf(init) + [Classify(w).tag];
      } else {
        assert TagsOf(words) == TagsOf(init);
      }
    }
  }

  /** Content words are concatenated in order, each followed by one space. */
  lemma {:induction false} ContentLaw(words: seq<string>)
    ensures Fold(words).content == ContentOf(words)
    decreases |words|
  {
    if words != [] {
      var n := |words| - 1;
      var init, w := words[..n], words[n];
      assert words == init + [w];
      ContentLaw(init);
      FlatMapAppend(init, [w], ContentPart);
    }
  }

  /** A tag is collected exactly when some `::` word carries it. */
  lemma {:induction false} TagsMembership(words: seq<string>, x: string)
    ensures x in TagsOf(words) <==> exists i :: 0 <= i < |words| && Classify(words[i]) == TagWord(x)
    decreases |words|
  {
    if words != [] {
      TagsMembership(words[1..], x);
      if x in TagsOf(words[1..]) {
        var i :| 0 <= i < |words[1..]| && Classify(words[1..][i]) == TagWord(x);
        assert Classify(words[i + 1]) == TagWord(x);
      }
      forall i | 1 <= i < |words| && Classify(words[i]) == TagWord(x)
        ensures x in TagsOf(words[1..])
      {
        assert words[1..][i - 1] == words[i];
      }
    }
  }

  /** The memo text is empty exactly when no word is plain. */
  lemma {:induction false} ContentEmptyIff(words: seq<string>)
    ensures ContentOf(words) == [] <==> forall i :: 0 <= i < |words| ==> !Classify(words[i]).ContentWord?
    decreases |words|
  {
    if words != [] {
      ContentEmptyIff(words[1..]);
      assert forall i :: 1 <= i < |words| ==> words[i] == words[1..][i - 1];
    }
  }

  /** The tags field is `Some` exactly when some word is a `::` word. */
  lemma TagsPresentIff(words: seq<string>)
    ensures Fold(words).tags.Some? <==> exists i :: 0 <= i < |words| && Classify(words[i]).TagWord?
  {
    AppendLaw(words);
    if TagsOf(words) != [] {
      var x := TagsOf(words)[0];
      TagsMembership(words, x);
    }
    forall i | 0 <= i < |words| && Classify(words[i]).TagWord?
      ensures TagsOf(words) != []
    {
      TagsMembership(words, Classify(words[i]).tag);
    }
  }

  // ---------------------------------------------------------------------
  // build_request
  // ---------------------------------------------------------------------

  /**
    `build_request`: folds the words, then lets a `--url` value replace the
    content and turn the request into a bookmark. It fails when `--url` is
    given without a value, and when the final content is empty; the
    emptiness test is on the raw text, so a lone empty word `""` gives the
    content `" "` and is accepted.
   */
  function Build(words: seq<string>, url: FlagOpt): (r: Result<CuboxRequest, BuildError>)
    ensures r.Success? ==> r.value.content != []
    ensures url.NoValue? <==> r == Failure(MissingUrl)
    ensures url.Absent? ==>
              (r.Success? <==> exists i :: 0 <= i < |words| && Classify(words[i]).ContentWord?)
    ensures url.Absent? && r.Success? ==> r.value.kind == Memo && r.value.content == ContentOf(words)
    ensures url.Value? ==> (r.Success? <==> url.value != [])
    ensures url.Value? && r.Success? ==> r.value.kind == Url && r.value.content == url.value
    ensures r.Success? ==> LastWins(words, Folder, r.value.folder)
    ensures r.Success? ==> LastWins(words, Title, r.value.title)
    ensures r.Success? ==> LastWins(words, Description, r.value.description)
    ensures r.Success? ==> r.value.tags == TagsOption(TagsOf(words))
  {
    var acc := Fold(words);
    OverwriteLaw(words, Folder);
    OverwriteLaw(words, Title);
    OverwriteLaw(words, Description);
    AppendLaw(words);
    ContentLaw(words);
    ContentEmptyIff(words);
    match url
    case NoValue => Failure(MissingUrl)
    case Absent => if acc.content == [] then Failure(NothingToSave) else Success(acc)
    case Value(u) =>
      var bookmark := acc.(kind := Url, content := u);
      if bookmark.content == [] then Failure(NothingToSave) else Success(bookmark)
  }

  /** `build_request` as the source writes it: one loop over the words, then the checks. */
  method BuildRequest(words: seq<string>, url: FlagOpt) returns (r: Result<CuboxRequest, BuildError>)
    ensures r == Build(words, url)
  {
    var acc := Blank;
    var i := 0;
    while i < |words|
      invariant 0 <= i <= |words|
      invariant acc == Fold(words[..i])
    {
      assert words[..i + 1][..i] == words[..i];
      acc := Step(acc, words[i]);
      i := i + 1;
    }
    assert words[..|words|] == words;
    match url {
      case NoValue =>
        return Failure(MissingUrl);
      case Value(u) =>
        acc := acc.(kind := Url, content := u);
      case Absent =>
    }
    if acc.content == [] {
      return Failure(NothingToSave);
    }
    r := Success(acc);
  }

  /** A word whose first character begins no sigil is plain. */
  lemma PlainByFirst(w: string)
    requires |w| > 0 && w[0] != '@' && w[0] != '^' && w[0] != ':' && w[0] != '%'
    ensures Plain(w)
  {
    assert FolderSigil[0] == '@' && TitleSigil[0] == '^' && TagSigil[0] == ':' && DescriptionSigil[0] == '%';
  }

  /** Worked cases: bookmarks, the empty command line, and the raw emptiness test. */
  lemma Examples()
    ensures Build([], Value("http://x")) == Success(Blank.(kind := Url, content := "http://x"))
    ensures Build([], Absent) == Failure(NothingToSave)
    ensures Build([], Value("")) == Failure(NothingToSave)
    ensures Build([""], Absent) == Success(Blank.(content := " "))
    ensures Build(["hello", "world"], Absent) == Success(Blank.(content := "hello world "))
  {
    assert [""][..0] == [];
    assert Classify("") == ContentWord("");
    assert Fold([""]) == Blank.(content := " ");
    PlainByFirst("hello");
    PlainByFirst("world");
    assert ["hello", "world"][..1] == ["hello"];
    assert ["hello"][..0] == [];
    assert Fold(["hello"]) == Blank.(content := "hello ");
    assert "hello " + "world" + " " == "hello world ";
    assert Fold(["hello", "world"]) == Blank.(content := "hello world ");
  }
}

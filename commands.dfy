/**
 * The pure parts of the `post` command: turning a title into a URL slug,
 * substituting the `:title`, `:year`, `:month` and `:day` placeholders of the
 * configured post file name, and the front matter (plus Org directives) a new
 * post starts with.
 */
module Commands {
  import opened Text
  import opened Templates

  // ---------------------------------------------------------------------------
  // slugify
  // ---------------------------------------------------------------------------

  predicate IsAscii(s: string) {
    forall i :: 0 <= i < |s| ==> s[i] as int < 128
  }

  predicate IsUpper(c: char) {
    'A' <= c <= 'Z'
  }

  function LowerChar(c: char): char {
    if IsUpper(c) then (c as int + 32) as char else c
  }

  /** strings.ToLower on ASCII text. */
  function Lower(s: string): string {
    seq(|s|, i requires 0 <= i < |s| => LowerChar(s[i]))
  }

  /** RE2's `\s`: tab, newline, form feed, carriage return and space (not vertical tab). */
  predicate IsRegexSpace(c: char) {
    c == '\t' || c == '\n' || c == '\U{C}' || c == '\r' || c == ' '
  }

  /**
   * Replacing `\s+` by "-": each maximal run of spaces becomes one '-'.
   * `inRun` says the text continues a run whose '-' is already written.
   */
  function CollapseFrom(s: string, inRun: bool): string
    decreases |s|
  {
    if s == [] then []
    else if IsRegexSpace(s[0]) then (if inRun then "" else "-") + CollapseFrom(s[1..], true)
    else [s[0]] + CollapseFrom(s[1..], false)
  }

  function CollapseSpaces(s: string): string {
    CollapseFrom(s, false)
  }

  /** RE2's `\w`. */
  predicate IsWordChar(c: char) {
    '0' <= c <= '9' || 'A' <= c <= 'Z' || 'a' <= c <= 'z' || c == '_'
  }

  predicate Kept(c: char) {
    IsWordChar(c) || c == '-'
  }

  /** Replacing `[^\w-]` by "": only word characters and '-' remain. */
  function DropNonWord(s: string): string
    decreases |s|
  {
    if s == [] then [] else (if Kept(s[0]) then [s[0]] else []) + DropNonWord(s[1..])
  }

  predicate IsSlugChar(c: char) {
    'a' <= c <= 'z' || '0' <= c <= '9' || c == '_' || c == '-'
  }

  predicate IsSlug(s: string) {
    forall i :: 0 <= i < |s| ==> IsSlugChar(s[i])
  }

  lemma LowerHasNoUpper(s: string)
    ensures forall c :: c in Lower(s) ==> !IsUpper(c)
  {
    forall c | c in Lower(s)
      ensures !IsUpper(c)
    {
      var i :| 0 <= i < |s| && Lower(s)[i] == c;
    }
  }

  lemma {:induction false} CollapseChars(s: string, inRun: bool)
    ensures forall i :: 0 <= i < |CollapseFrom(s, inRun)| ==>
      CollapseFrom(s, inRun)[i] == '-' || (CollapseFrom(s, inRun)[i] in s && !IsRegexSpace(CollapseFrom(s, inRun)[i]))
    decreases |s|
  {
    if s != [] {
      var rest := s[1..];
      var r := CollapseFrom(s, inRun);
      var sub := CollapseFrom(rest, IsRegexSpace(s[0]));
      var prefix := if IsRegexSpace(s[0]) then (if inRun then "" else "-") else [s[0]];
      CollapseChars(rest, IsRegexSpace(s[0]));
      assert r == prefix + sub;
      var off := |prefix|;
      forall i | 0 <= i < |r|
        ensures r[i] == '-' || (r[i] in s && !IsRegexSpace(r[i]))
      {
        if i >= off {
          var c := sub[i - off];
          assert r[i] == c;
          assert c == '-' || (c in rest && !IsRegexSpace(c));
          if c != '-' {
            var j :| 0 <= j < |rest| && rest[j] == c;
            assert s[j + 1] == c;
          }
        } else {
          assert r[i] == prefix[i];
        }
      }
    }
  }

  lemma {:induction false} DropNonWordChars(s: string)
    ensures forall i :: 0 <= i < |DropNonWord(s)| ==> Kept(DropNonWord(s)[i]) && DropNonWord(s)[i] in s
    decreases |s|
  {
    if s != [] {
      var rest := s[1..];
      var r := DropNonWord(s);
      var sub := DropNonWord(rest);
      var prefix := if Kept(s[0]) then [s[0]] else [];
      DropNonWordChars(rest);
      assert r == prefix + sub;
      var off := |prefix|;
      forall i | 0 <= i < |r|
        ensures Kept(r[i]) && r[i] in s
      {
        if i >= off {
          var c := sub[i - off];
          assert r[i] == c;
          assert Kept(c) && c in rest;
          var j :| 0 <= j < |rest| && rest[j] == c;
          assert s[j + 1] == c;
        } else {
          assert r[i] == prefix[i] == s[0];
        }
      }
    }
  }

  /**
   * slugify, for ASCII titles: lower-case, trim the outer whitespace, turn
   * each whitespace run into '-', drop every character that is not a word
   * character or '-'.  (Unicode decomposition is the identity on ASCII.)
   */
  function Slugify(title: string): (slug: string)
    requires IsAscii(title)
    ensures IsSlug(slug)
  {
    var lower := Lower(title);
    var trimmed := TrimSpace(lower);
    var dashed := CollapseSpaces(trimmed);
    LowerHasNoUpper(title);
    TrimSpaceSubset(lower);
    CollapseChars(trimmed, false);
    DropNonWordChars(dashed);
    DropNonWord(dashed)
  }

  lemma {:induction false} CollapseNoSpace(s: string, inRun: bool)
    requires forall i :: 0 <= i < |s| ==> !IsRegexSpace(s[i])
    ensures CollapseFrom(s, inRun) == s
    decreases |s|
  {
    if s != [] {
      CollapseNoSpace(s[1..], false);
    }
  }

  lemma {:induction false} DropNonWordKeeps(s: string)
    requires forall i :: 0 <= i < |s| ==> Kept(s[i])
    ensures DropNonWord(s) == s
    decreases |s|
  {
    if s != [] {
      DropNonWordKeeps(s[1..]);
    }
  }

  /** A slug is its own slug. */
  lemma SlugifyIdempotent(title: string)
    requires IsAscii(title)
    ensures IsAscii(Slugify(title))
    ensures Slugify(Slugify(title)) == Slugify(title)
  {
    var s := Slugify(title);
    assert Lower(s) == s;
    TrimSpaceUnchanged(s);
    CollapseNoSpace(s, false);
    DropNonWordKeeps(s);
  }

  lemma LowerAppend(x: string, y: string)
    ensures Lower(x + y) == Lower(x) + Lower(y)
  {
  }

  lemma LowerKeepsSpaces(w: string)
    requires AllSpace(w)
    ensures Lower(w) == w
  {
  }

  /** Whitespace around the title never reaches the slug: it is trimmed before any '-' is made. */
  lemma SlugifyIgnoresOuterSpace(w1: string, x: string, w2: string)
    requires IsAscii(w1) && IsAscii(x) && IsAscii(w2)
    requires AllSpace(w1) && AllSpace(w2)
    ensures Slugify(w1 + x + w2) == Slugify(x)
  {
    LowerAppend(w1 + x, w2);
    LowerAppend(w1, x);
    LowerKeepsSpaces(w1);
    LowerKeepsSpaces(w2);
    TrimSpaceOuter(w1, Lower(x), w2);
  }

  lemma {:induction false} CollapseWord(x: string, y: string, inRun: bool)
    requires x != [] && forall i :: 0 <= i < |x| ==> !IsRegexSpace(x[i])
    ensures CollapseFrom(x + y, inRun) == x + CollapseFrom(y, false)
    decreases |x|
  {
    assert (x + y)[1..] == x[1..] + y;
    if |x| > 1 {
      CollapseWord(x[1..], y, false);
    }
  }

  lemma {:induction false} CollapseRun(w: string, y: string, inRun: bool)
    requires w != [] && forall i :: 0 <= i < |w| ==> IsRegexSpace(w[i])
    requires y == [] || !IsRegexSpace(y[0])
    ensures CollapseFrom(w + y, inRun) == (if inRun then "" else "-") + CollapseFrom(y, false)
    decreases |w|
  {
    assert (w + y)[1..] == w[1..] + y;
    if |w| > 1 {
      CollapseRun(w[1..], y, true);
    }
  }

  lemma {:induction false} DropNonWordAppend(x: string, y: string)
    ensures DropNonWord(x + y) == DropNonWord(x) + DropNonWord(y)
    decreases |x|
  {
    if x != [] {
      assert (x + y)[1..] == x[1..] + y;
      DropNonWordAppend(x[1..], y);
    } else {
      assert x + y == y;
    }
  }

  predicate NoSpace(s: string) {
    forall i :: 0 <= i < |s| ==> !IsSpace(s[i])
  }

  predicate AllRegexSpace(w: string) {
    forall i :: 0 <= i < |w| ==> IsRegexSpace(w[i])
  }

  lemma LowerNoSpace(a: string)
    requires NoSpace(a)
    ensures NoSpace(Lower(a)) && |Lower(a)| == |a|
  {
  }

  lemma LowerJoin(a: string, w: string, b: string)
    requires AllRegexSpace(w)
    ensures Lower(a + w + b) == Lower(a) + w + Lower(b)
  {
    LowerAppend(a + w, b);
    LowerAppend(a, w);
    assert Lower(w) == w;
  }

  lemma DropJoin(x: string, y: string)
    ensures DropNonWord(x + "-" + y) == DropNonWord(x) + "-" + DropNonWord(y)
  {
    DropNonWordAppend(x + "-", y);
    DropNonWordAppend(x, "-");
  }

  /** The slug of a word with no whitespace: lower-cased, with non-word characters dropped. */
  lemma SlugOfWord(a: string)
    requires IsAscii(a) && a != [] && NoSpace(a)
    ensures Slugify(a) == DropNonWord(Lower(a))
  {
    LowerNoSpace(a);
    var la := Lower(a);
    TrimSpaceUnchanged(la);
    CollapseNoSpace(la, false);
  }

  /** Trimming a word, a run and the rest only trims the end of the rest. */
  lemma TrimJoin(x: string, w: string, y: string)
    requires x != [] && NoSpace(x)
    requires y != [] && !IsSpace(y[0])
    ensures TrimSpace(x + w + y) == x + w + TrimSpace(y)
  {
    assert !IsSpace(x[0]);
    TrimLeftAppend(x, w + y);
    assert TrimLeft(x) == x;
    assert x + (w + y) == x + w + y;
    assert !IsSpace(y[0]);
    TrimRightAppend(x + w, y);
    assert TrimLeft(y) == y;
  }

  /** A word, a run of whitespace and a rest that starts with no space: the run becomes one '-'. */
  lemma CollapseJoinRest(x: string, w: string, y: string)
    requires x != [] && NoSpace(x)
    requires y != [] && !IsSpace(y[0])
    requires w != [] && AllRegexSpace(w)
    ensures CollapseSpaces(x + w + y) == x + "-" + CollapseSpaces(y)
  {
    Regroup(x, w, y);
    CollapseWord(x, w + y, false);
    CollapseRun(w, y, false);
  }

  /**
   * A word, a run of whitespace, and the rest of the title: the slug is the
   * word's slug, a single '-', and the slug of the rest. Applied word by
   * word, every run of whitespace inside a title becomes one '-'.
   */
  lemma SlugifyJoinsWords(a: string, w: string, b: string)
    requires IsAscii(a) && IsAscii(w) && IsAscii(b)
    requires a != [] && NoSpace(a)
    requires b != [] && !IsSpace(b[0])
    requires w != [] && AllRegexSpace(w)
    ensures Slugify(a + w + b) == Slugify(a) + "-" + Slugify(b)
  {
    var la, lb := Lower(a), Lower(b);
    LowerNoSpace(a);
    LowerJoin(a, w, b);
    assert lb[0] == LowerChar(b[0]);
    TrimJoin(la, w, lb);
    var t := TrimSpace(lb);
    TrimSpaceFirst(lb);
    CollapseJoinRest(la, w, t);
    DropJoin(la, CollapseSpaces(t));
    SlugOfWord(a);
  }

  // ---------------------------------------------------------------------------
  // The post file name
  // ---------------------------------------------------------------------------

  /**
   * Post's file name: the configured format with `:title` replaced by the
   * slug, `:year` by the year, and `:month` and `:day` by two-digit numbers,
   * substituted in that order.
   */
  function PostFilename(format: string, slug: string, year: int, month: nat, day: nat): string {
    var f1 := ReplaceAll(format, ":title", slug);
    var f2 := ReplaceAll(f1, ":year", Decimal(year));
    var f3 := ReplaceAll(f2, ":month", Pad2(month));
    ReplaceAll(f3, ":day", Pad2(day))
  }

  /** A format without placeholders is the file name itself. */
  lemma NoPlaceholdersUnchanged(format: string, slug: string, year: int, month: nat, day: nat)
    requires !Contains(format, ":title") && !Contains(format, ":year")
    requires !Contains(format, ":month") && !Contains(format, ":day")
    ensures PostFilename(format, slug, year, month, day) == format
  {
    ReplaceAllAbsent(format, ":title", slug);
    ReplaceAllAbsent(format, ":year", Decimal(year));
    ReplaceAllAbsent(format, ":month", Pad2(month));
    ReplaceAllAbsent(format, ":day", Pad2(day));
  }

  /** A file-name format, as literal text and placeholders. */
  datatype Piece = Lit(text: string) | Title | Year | Month | Day

  function PieceText(p: Piece): string {
    match p
    case Lit(t) => t
    case Title => ":title"
    case Year => ":year"
    case Month => ":month"
    case Day => ":day"
  }

  function FormatOf(ps: seq<Piece>): string
    decreases |ps|
  {
    if ps == [] then "" else PieceText(ps[0]) + FormatOf(ps[1..])
  }

  /** The literal text holds no ':', so only the placeholders can match. */
  predicate WellFormed(ps: seq<Piece>) {
    forall i :: 0 <= i < |ps| ==> ps[i].Lit? ==> ':' !in ps[i].text
  }

  /** The pieces with placeholder `k` turned into the literal `v`. */
  function Subst(ps: seq<Piece>, k: Piece, v: string): seq<Piece>
    decreases |ps|
  {
    if ps == [] then [] else [if ps[0] == k then Lit(v) else ps[0]] + Subst(ps[1..], k, v)
  }

  /** The file name the format means: each placeholder replaced by its value. */
  function Expand(ps: seq<Piece>, slug: string, year: int, month: nat, day: nat): string
    decreases |ps|
  {
    if ps == [] then ""
    else
      var head :=
        match ps[0]
        case Lit(t) => t
        case Title => slug
        case Year => Decimal(year)
        case Month => Pad2(month)
        case Day => Pad2(day);
      head + Expand(ps[1..], slug, year, month, day)
  }

  lemma WellFormedTail(ps: seq<Piece>)
    requires ps != [] && WellFormed(ps)
    ensures WellFormed(ps[1..])
  {
    forall i | 0 <= i < |ps| - 1
      ensures ps[1..][i].Lit? ==> ':' !in ps[1..][i].text
    {
      assert ps[1..][i] == ps[i + 1];
    }
  }

  lemma {:induction false} SubstWellFormed(ps: seq<Piece>, k: Piece, v: string)
    requires WellFormed(ps) && ':' !in v
    ensures WellFormed(Subst(ps, k, v))
    decreases |ps|
  {
    if ps != [] {
      WellFormedTail(ps);
      SubstWellFormed(ps[1..], k, v);
      var sub := Subst(ps, k, v);
      var tail := Subst(ps[1..], k, v);
      forall i | 0 <= i < |sub|
        ensures sub[i].Lit? ==> ':' !in sub[i].text
      {
        if i > 0 {
          assert sub[i] == tail[i - 1];
        }
      }
    }
  }

  /** The first piece: a literal passes through, the placeholder is replaced, another placeholder stays. */
  lemma ReplacePiece(p: Piece, y: string, k: Piece, v: string)
    requires !k.Lit? && (p.Lit? ==> ':' !in p.text)
    ensures ReplaceAll(PieceText(p) + y, PieceText(k), v)
         == PieceText(if p == k then Lit(v) else p) + ReplaceAll(y, PieceText(k), v)
  {
    var pat := PieceText(k);
    assert pat[0] == ':';
    if p.Lit? {
      ReplaceAllSkips(p.text, y, pat, v);
    } else if p == k {
      ReplaceAllHead(pat, y, v);
    } else {
      ReplaceAllMismatch(PieceText(p), y, pat, v);
    }
  }

  /** One ReplaceAll replaces exactly the occurrences of one placeholder. */
  lemma {:induction false} ReplacePlaceholder(ps: seq<Piece>, k: Piece, v: string)
    requires !k.Lit? && WellFormed(ps)
    ensures ReplaceAll(FormatOf(ps), PieceText(k), v) == FormatOf(Subst(ps, k, v))
    decreases |ps|
  {
    if ps == [] {
      assert ReplaceAll("", PieceText(k), v) == "";
    } else {
      WellFormedTail(ps);
      ReplacePlaceholder(ps[1..], k, v);
      assert ps[0].Lit? ==> ':' !in ps[0].text;
      ReplacePiece(ps[0], FormatOf(ps[1..]), k, v);
    }
  }

  lemma {:induction false} SubstAllExpands(ps: seq<Piece>, slug: string, year: int, month: nat, day: nat)
    ensures FormatOf(Subst(Subst(Subst(Subst(ps, Title, slug), Year, Decimal(year)), Month, Pad2(month)), Day, Pad2(day)))
        == Expand(ps, slug, year, month, day)
    decreases |ps|
  {
    if ps != [] {
      SubstAllExpands(ps[1..], slug, year, month, day);
    }
  }

  lemma NoColonInDigits(s: string)
    requires forall i :: 0 <= i < |s| ==> IsDigit(s[i]) || s[i] == '-'
    ensures ':' !in s
  {
    assert forall i :: 0 <= i < |s| ==> s[i] != ':';
  }

  lemma NumbersHaveNoColon(year: int, month: nat, day: nat)
    ensures ':' !in Decimal(year) && ':' !in Pad2(month) && ':' !in Pad2(day)
  {
    NoColonInDigits(Decimal(year));
    NoColonInDigits(Pad2(month));
    NoColonInDigits(Pad2(day));
  }

  /**
   * Substituting a format made of literal text (without ':') and
   * placeholders gives each placeholder's value in its place; a slug never
   * contains ':', so the later substitutions never touch it.
   */
  lemma PostFilenameExpands(ps: seq<Piece>, slug: string, year: int, month: nat, day: nat)
    requires WellFormed(ps) && ':' !in slug
    ensures PostFilename(FormatOf(ps), slug, year, month, day) == Expand(ps, slug, year, month, day)
  {
    NumbersHaveNoColon(year, month, day);
    var s1 := Subst(ps, Title, slug);
    ReplacePlaceholder(ps, Title, slug);
    SubstWellFormed(ps, Title, slug);
    var s2 := Subst(s1, Year, Decimal(year));
    ReplacePlaceholder(s1, Year, Decimal(year));
    SubstWellFormed(s1, Year, Decimal(year));
    var s3 := Subst(s2, Month, Pad2(month));
    ReplacePlaceholder(s2, Month, Pad2(month));
    SubstWellFormed(s2, Month, Pad2(month));
    ReplacePlaceholder(s3, Day, Pad2(day));
    SubstAllExpands(ps, slug, year, month, day);
  }

  /** The slug of any ASCII title can be substituted safely. */
  lemma SlugHasNoColon(title: string)
    requires IsAscii(title)
    ensures ':' !in Slugify(title)
  {
    var s := Slugify(title);
    assert forall i :: 0 <= i < |s| ==> s[i] != ':';
  }

  /** Post's target path: the source directory joined with the file name. */
  function PostPath(srcDir: string, format: string, title: string, year: int, month: nat, day: nat): string
    requires IsAscii(title)
  {
    Join(srcDir, PostFilename(format, Slugify(title), year, month, day))
  }

  lemma {:induction false} ExpandLit(ps: seq<Piece>, ext: string, slug: string, year: int, month: nat, day: nat)
    ensures Expand(ps + [Lit(ext)], slug, year, month, day) == Expand(ps, slug, year, month, day) + ext
    decreases |ps|
  {
    if ps == [] {
      assert ([] + [Lit(ext)])[1..] == [];
    } else {
      assert (ps + [Lit(ext)])[1..] == ps[1..] + [Lit(ext)];
      ExpandLit(ps[1..], ext, slug, year, month, day);
    }
  }

  /** The post is written under the source directory, at the expanded file name. */
  lemma PostPathExpands(srcDir: string, ps: seq<Piece>, title: string, year: int, month: nat, day: nat)
    requires IsAscii(title) && WellFormed(ps)
    ensures PostPath(srcDir, FormatOf(ps), title, year, month, day)
      == Join(srcDir, Expand(ps, Slugify(title), year, month, day))
  {
    SlugHasNoColon(title);
    PostFilenameExpands(ps, Slugify(title), year, month, day);
  }

  lemma WellFormedSnoc(ps: seq<Piece>, ext: string)
    requires WellFormed(ps) && ':' !in ext
    ensures WellFormed(ps + [Lit(ext)])
  {
    var qs := ps + [Lit(ext)];
    forall i | 0 <= i < |qs| && qs[i].Lit?
      ensures ':' !in qs[i].text
    {
      if i < |ps| { assert qs[i] == ps[i]; }
    }
  }

  lemma JoinExt(dir: string, stem: string, ext: string)
    requires ext != [] && ext[0] == '.'
    requires forall i :: 1 <= i < |ext| ==> ext[i] != '.' && ext[i] != '/'
    ensures Ext(Join(dir, stem + ext)) == ext
  {
    var lead := if dir == "" then "" else dir + "/";
    assert Join(dir, stem + ext) == lead + stem + ext;
    ExtOfSuffix(lead + stem, ext);
  }

  /** A format ending in a literal extension gives the post's path that extension. */
  lemma PostPathExt(srcDir: string, ps: seq<Piece>, ext: string, title: string, year: int, month: nat, day: nat)
    requires IsAscii(title) && WellFormed(ps) && ':' !in ext
    requires ext != [] && ext[0] == '.'
    requires forall i :: 1 <= i < |ext| ==> ext[i] != '.' && ext[i] != '/'
    ensures Ext(PostPath(srcDir, FormatOf(ps + [Lit(ext)]), title, year, month, day)) == ext
  {
    WellFormedSnoc(ps, ext);
    PostPathExpands(srcDir, ps + [Lit(ext)], title, year, month, day);
    var slug := Slugify(title);
    ExpandLit(ps, ext, slug, year, month, day);
    JoinExt(srcDir, Expand(ps, slug, year, month, day), ext);
  }

  // ---------------------------------------------------------------------------
  // The new post's content
  // ---------------------------------------------------------------------------

  /** The metadata lines of a new post. */
  function MetadataLines(title: string, date: string, lang: string): seq<string> {
    ["title: " + title, "date: " + date, "layout: post", "lang: " + lang, "tags: []"]
  }

  /** The metadata text of a new post. */
  function PostMetadata(title: string, date: string, lang: string): string {
    JoinLines(MetadataLines(title, date, lang))
  }

  /** DEFAULT_FRONTMATTER filled in, line by line. */
  function FrontMatterLines(title: string, date: string, lang: string): seq<string> {
    [Separator] + MetadataLines(title, date, lang) + [Separator]
  }

  /** DEFAULT_ORG_DIRECTIVES filled in, line by line. */
  function OrgLines(lang: string): seq<string> {
    ["#+OPTIONS: toc:nil num:nil", "#+LANGUAGE: " + lang]
  }

  /** The lines Post writes: the front matter, then the Org directives for a `.org` path. */
  function PostLines(path: string, title: string, date: string, lang: string): seq<string> {
    FrontMatterLines(title, date, lang) + (if Ext(path) == ".org" then OrgLines(lang) else [])
  }

  /** The content Post writes. */
  function PostContent(path: string, title: string, date: string, lang: string): string {
    JoinLines(PostLines(path, title, date, lang))
  }

  /** A line that starts with a character other than a space or '-' is not a delimiter. */
  lemma NotSeparatorLine(line: string)
    requires line != [] && !IsSpace(line[0]) && line[0] != '-'
    ensures !IsSeparator(line)
  {
    TrimSpaceFirst(line);
  }

  /** No line holds a '\n'. */
  predicate NoNewlines(ls: seq<string>) {
    forall j :: 0 <= j < |ls| ==> '\n' !in ls[j]
  }

  lemma NoNewlinesAppend(a: seq<string>, b: seq<string>)
    requires NoNewlines(a) && NoNewlines(b)
    ensures NoNewlines(a + b)
  {
    forall j | 0 <= j < |a + b|
      ensures '\n' !in (a + b)[j]
    {
      if j >= |a| { assert (a + b)[j] == b[j - |a|]; }
    }
  }

  lemma PostLinesShape(path: string, title: string, date: string, lang: string)
    requires '\n' !in title && '\n' !in date && '\n' !in lang
    ensures var ls := PostLines(path, title, date, lang);
      && |ls| >= 7 && ls[0] == Separator && ls[6] == Separator
      && ls[1..6] == MetadataLines(title, date, lang)
      && NoNewlines(ls)
  {
    var meta := MetadataLines(title, date, lang);
    var org := if Ext(path) == ".org" then OrgLines(lang) else [];
    assert NoNewlines(meta) by {
      forall j | 0 <= j < 5
        ensures '\n' !in meta[j]
      {
        if j == 0 { assert meta[j] == "title: " + title; }
        else if j == 1 { assert meta[j] == "date: " + date; }
        else if j == 3 { assert meta[j] == "lang: " + lang; }
      }
    }
    assert NoNewlines(org) by {
      if org != [] {
        assert org[1] == "#+LANGUAGE: " + lang;
      }
    }
    NoNewlinesAppend([Separator], meta);
    NoNewlinesAppend([Separator] + meta, [Separator]);
    NoNewlinesAppend([Separator] + meta + [Separator], org);
  }

  lemma MetadataNotSeparators(title: string, date: string, lang: string)
    ensures forall j :: 0 <= j < 5 ==> !IsSeparator(MetadataLines(title, date, lang)[j])
  {
    var meta := MetadataLines(title, date, lang);
    forall j | 0 <= j < 5
      ensures !IsSeparator(meta[j])
    {
      NotSeparatorLine(meta[j]);
    }
  }

  /**
   * A new post is a template: its metadata text is the metadata lines, and
   * its body is empty, or, for an Org file, the two directive lines.
   */
  lemma PostContentIsTemplate(path: string, title: string, date: string, lang: string)
    requires '\n' !in title && '\n' !in date && '\n' !in lang
    ensures SplitFrontMatter(Lines(PostContent(path, title, date, lang)))
      == Parts(PostMetadata(title, date, lang),
               if Ext(path) == ".org" then TrimSuffixNewline(JoinLines(OrgLines(lang))) else "")
  {
    var ls := PostLines(path, title, date, lang);
    PostLinesShape(path, title, date, lang);
    LinesOfJoinLines(ls);
    SeparatorLine();
    MetadataNotSeparators(title, date, lang);
    assert forall j :: 1 <= j < 6 ==> ls[j] == ls[1..6][j - 1];
    SplitAtFirstSeparator(ls, 6);
  }

  /**
   * A post whose format ends in ".org" is written with the Org directives
   * as its body.
   */
  lemma OrgPostHasDirectives(srcDir: string, ps: seq<Piece>, title: string, year: int, month: nat, day: nat,
                             date: string, lang: string)
    requires IsAscii(title) && WellFormed(ps)
    requires '\n' !in title && '\n' !in date && '\n' !in lang
    ensures var path := PostPath(srcDir, FormatOf(ps + [Lit(".org")]), title, year, month, day);
      SplitFrontMatter(Lines(PostContent(path, title, date, lang)))
        == Parts(PostMetadata(title, date, lang), TrimSuffixNewline(JoinLines(OrgLines(lang))))
  {
    var path := PostPath(srcDir, FormatOf(ps + [Lit(".org")]), title, year, month, day);
    PostPathExt(srcDir, ps, ".org", title, year, month, day);
    PostContentIsTemplate(path, title, date, lang);
  }
}

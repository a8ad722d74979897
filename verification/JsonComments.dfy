/** Comments: what the minifier takes out of a text, wherever they stand outside literals. */
module JsonComments {
  import opened JsonText
  import opened JsonMinify

  /** After the text, the minifier is neither in a literal nor in a comment nor after a lone slash. */
  predicate Outside(s: string)
    decreases |s|
  {
    if s == "" then true
    else if s[0] == '/' then
      && |s| > 1
      && if s[1] == '/' then
           assert AfterLine(s) == AfterLine(s[1..]);
           AfterLine(s) != "" && Outside(AfterLine(s))
         else if s[1] == '*' then AfterComment(s).Some? && Outside(AfterComment(s).value)
         else Outside(s[1..])
    else if s[0] == '\"' then Literal(s[1..]).Some? && Outside(Literal(s[1..]).value.1)
    else Outside(s[1..])
  }

  /** No `*` is followed by `/`. */
  predicate NoEnd(s: string) { forall i | 0 <= i < |s| - 1 :: !(s[i] == '*' && s[i + 1] == '/') }

  lemma {:induction false} LineSplits(x: string, z: string)
    requires AfterLine(x) != ""
    ensures AfterLine(x + z) == AfterLine(x) + z
  {
    if x[0] != '\n' {
      LineSplits(x[1..], z);
      assert (x + z)[1..] == x[1..] + z;
    }
  }

  lemma LineShorter(x: string)
    requires x != "" && x[0] != '\n'
    ensures |AfterLine(x)| < |x|
  {
  }

  lemma {:induction false} CommentSplits(x: string, z: string)
    requires AfterComment(x).Some?
    ensures AfterComment(x + z) == Some(AfterComment(x).value + z)
  {
    if x[0] == '*' && |x| > 1 && x[1] == '/' {
      assert (x + z)[2..] == x[2..] + z;
    } else {
      CommentSplits(x[1..], z);
      assert (x + z)[1..] == x[1..] + z;
    }
  }

  lemma {:induction false} LiteralSplits(x: string, z: string)
    requires Literal(x).Some?
    ensures Literal(x + z) == Some((Literal(x).value.0, Literal(x).value.1 + z))
    decreases |x|
  {
    if x[0] == '\"' {
      assert (x + z)[1..] == x[1..] + z;
    } else {
      var n := if x[0] == '\\' then 2 else 1;
      LiteralSplits(x[n..], z);
      assert (x + z)[n..] == x[n..] + z && (x + z)[..n] == x[..n];
    }
  }

  /** A text that is cut outside literals and comments is minified part by part. */
  lemma {:induction false} OutsideSplits(x: string, z: string)
    requires Outside(x)
    ensures Minified(x).Some? && Minified(x + z) == Prepend(Minified(x).value, Minified(z))
    decreases |x|
  {
    hide Literal, AfterLine, AfterComment;
    if x == "" {
      assert x + z == z;
      Join("", "", Minified(z));
    } else if x[0] == '/' && x[1] == '/' {
      LineSplits(x, z);
      LineShorter(x);
      OutsideSplits(AfterLine(x), z);
    } else if x[0] == '/' && x[1] == '*' {
      CommentSplits(x, z);
      OutsideSplits(AfterComment(x).value, z);
    } else if x[0] == '\"' {
      var (t, rest) := Literal(x[1..]).value;
      LiteralSplits(x[1..], z);
      OutsideSplits(rest, z);
      assert (x + z)[1..] == x[1..] + z;
      Join("\"" + t, Minified(rest).value, Minified(z));
    } else {
      OutsideSplits(x[1..], z);
      assert (x + z)[1..] == x[1..] + z;
      if !Blank(x[0]) { Join([x[0]], Minified(x[1..]).value, Minified(z)); }
    }
  }

  lemma {:induction false} CommentEnds(c: string, y: string)
    requires NoEnd(c)
    ensures AfterComment(c + ("*/" + y)) == Some(y)
  {
    var s := c + ("*/" + y);
    if c != "" {
      assert s[1..] == c[1..] + ("*/" + y);
      forall i | 0 <= i < |c[1..]| - 1 ensures !(c[1..][i] == '*' && c[1..][i + 1] == '/') {
        assert c[1..][i] == c[i + 1];
      }
      CommentEnds(c[1..], y);
    } else {
      assert s == "*/" + y && s[2..] == y;
    }
  }

  lemma {:induction false} LineEnds(c: string, y: string)
    requires '\n' !in c
    ensures AfterLine(c + ("\n" + y)) == "\n" + y
  {
    var s := c + ("\n" + y);
    if c != "" {
      assert s[1..] == c[1..] + ("\n" + y);
      LineEnds(c[1..], y);
    } else {
      assert s == "\n" + y;
    }
  }

  /** A comment outside literals makes no difference to the minified text. */
  lemma BlockComment(x: string, c: string, y: string)
    requires Outside(x) && NoEnd("/*" + c)
    ensures Minified(x + ("/*" + c + "*/" + y)) == Minified(x + y)
  {
    hide Outside, NoEnd, AfterComment, AfterLine;
    var s := "/*" + c + "*/" + y;
    CommentEnds("/*" + c, y);
    assert s == ("/*" + c) + ("*/" + y);
    assert Minified(s) == Minified(y);
    OutsideSplits(x, s);
    OutsideSplits(x, y);
  }

  lemma LineComment(x: string, c: string, y: string)
    requires Outside(x) && '\n' !in c
    ensures Minified(x + ("//" + c + "\n" + y)) == Minified(x + y)
  {
    hide Outside, AfterComment, AfterLine;
    var s := "//" + c + "\n" + y;
    LineEnds("//" + c, y);
    assert s == ("//" + c) + ("\n" + y);
    BlankMinified("\n", y);
    assert Minified(s) == Minified("\n" + y);
    OutsideSplits(x, s);
    OutsideSplits(x, y);
  }

  /** Where a comment may start with a slash: the star that opens it also closes it. */
  lemma SlashCloses(y: string)
    ensures Minified("/*/" + y) == Minified(y)
  {
    CommentEnds("/", y);
    assert "/" + ("*/" + y) == "/*/" + y;
  }

  /** White space outside literals makes no difference either. */
  lemma WhiteSpace(x: string, b: char, y: string)
    requires Outside(x) && b in " \t\r\n"
    ensures Minified(x + ([b] + y)) == Minified(x + y)
  {
    hide Outside;
    OutsideSplits(x, [b] + y);
    OutsideSplits(x, y);
    assert ([b] + y)[1..] == y;
  }
}

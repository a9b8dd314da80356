/** A source row (a question, its body and its accepted answer) and the
    single text both ingestion engines build from it. That text is what is
    embedded, what is stored, and (through its hash) what identifies the
    stored document. */
module Rows {
  import opened Common

  datatype Row = Row(questionTitle: string, questionBody: string, acceptedAnswerBody: string)

  const TitleTag: string := "Title: "
  const BodyTag: string := "\nBody: "
  const AnswerTag: string := "\nAccepted Answer: "

  /** The f-string `"Title: {t}\nBody: {b}\nAccepted Answer: {a}"`. */
  function CombinedText(row: Row): string
  {
    TitleTag + row.questionTitle + BodyTag + row.questionBody + AnswerTag + row.acceptedAnswerBody
  }

  /** The combined text is the three tags and the three fields, each in
      full, in this order, and nothing else. */
  lemma CombinedTextLayout(row: Row)
    ensures var t := CombinedText(row);
            var title := |TitleTag| + |row.questionTitle|;
            var body := title + |BodyTag| + |row.questionBody|;
            && |t| == body + |AnswerTag| + |row.acceptedAnswerBody|
            && t[..|TitleTag|] == TitleTag
            && t[|TitleTag|..title] == row.questionTitle
            && t[title..title + |BodyTag|] == BodyTag
            && t[title + |BodyTag|..body] == row.questionBody
            && t[body..body + |AnswerTag|] == AnswerTag
            && t[body + |AnswerTag|..] == row.acceptedAnswerBody
  {
    var t := CombinedText(row);
    var title := |TitleTag| + |row.questionTitle|;
    var body := title + |BodyTag| + |row.questionBody|;
    assert t[..title] == TitleTag + row.questionTitle;
    assert t[title..body] == BodyTag + row.questionBody;
    assert t[body..] == AnswerTag + row.acceptedAnswerBody;
    assert (TitleTag + row.questionTitle)[..|TitleTag|] == TitleTag;
    assert (BodyTag + row.questionBody)[..|BodyTag|] == BodyTag;
    assert (AnswerTag + row.acceptedAnswerBody)[..|AnswerTag|] == AnswerTag;
  }

  /** The combined texts of a run of rows, in row order. */
  function Texts(rows: seq<Row>): (ts: seq<string>)
    ensures |ts| == |rows|
    ensures forall k :: 0 <= k < |rows| ==> ts[k] == CombinedText(rows[k])
  {
    if rows == [] then [] else Texts(rows[..|rows| - 1]) + [CombinedText(rows[|rows| - 1])]
  }

  /** The position of the first line break of `s`, or `|s|` when there is none. */
  function FirstNewline(s: string): (i: nat)
    ensures i <= |s|
    ensures forall k :: 0 <= k < i ==> s[k] != '\n'
    ensures i < |s| ==> s[i] == '\n'
  {
    if s == [] || s[0] == '\n' then 0 else 1 + FirstNewline(s[1..])
  }

  predicate HasPrefix(s: string, p: string)
  {
    |p| <= |s| && s[..|p|] == p
  }

  /** Reads a combined text back into its three fields, splitting at the
      first line break after the title and the first one after the body. */
  function Parse(s: string): Option<Row>
  {
    if !HasPrefix(s, TitleTag) then None
    else
      var afterTitleTag := s[|TitleTag|..];
      var i := FirstNewline(afterTitleTag);
      var fromBody := afterTitleTag[i..];
      if !HasPrefix(fromBody, BodyTag) then None
      else
        var afterBodyTag := fromBody[|BodyTag|..];
        var j := FirstNewline(afterBodyTag);
        var fromAnswer := afterBodyTag[j..];
        if !HasPrefix(fromAnswer, AnswerTag) then None
        else Some(Row(afterTitleTag[..i], afterBodyTag[..j], fromAnswer[|AnswerTag|..]))
  }

  lemma StripPrefix(p: string, rest: string)
    ensures HasPrefix(p + rest, p) && (p + rest)[|p|..] == rest
  {
    assert (p + rest)[..|p|] == p;
  }

  /** Splitting `line + tag + rest` at its first line break gives back `line`
      when `line` is a single line and `tag` opens with a line break. */
  lemma SplitAtNewline(line: string, tag: string, rest: string)
    requires '\n' !in line && |tag| > 0 && tag[0] == '\n'
    ensures FirstNewline(line + tag + rest) == |line|
    ensures (line + tag + rest)[..|line|] == line
    ensures (line + tag + rest)[|line|..] == tag + rest
  {
    var s := line + tag + rest;
    assert s == line + (tag + rest);
    assert s[|line|] == '\n';
    assert forall k :: 0 <= k < |line| ==> s[k] == line[k];
  }

  /** The combined text is a faithful encoding of the row whenever the title
      and the body are single lines: it parses back to the same row. */
  lemma ParseCombinedText(row: Row)
    requires '\n' !in row.questionTitle && '\n' !in row.questionBody
    ensures Parse(CombinedText(row)) == Some(row)
  {
    var t, b, a := row.questionTitle, row.questionBody, row.acceptedAnswerBody;
    var fromAnswer := AnswerTag + a;
    var fromBody := BodyTag + (b + fromAnswer);
    var afterTitleTag := t + fromBody;
    assert CombinedText(row) == TitleTag + afterTitleTag;
    StripPrefix(TitleTag, afterTitleTag);
    SplitAtNewline(t, BodyTag, b + fromAnswer);
    assert t + BodyTag + (b + fromAnswer) == afterTitleTag;
    StripPrefix(BodyTag, b + fromAnswer);
    SplitAtNewline(b, AnswerTag, a);
    assert b + AnswerTag + a == b + fromAnswer;
    StripPrefix(AnswerTag, a);
  }

  /** Rows with single-line titles and bodies have equal combined texts only
      when they are the same row. Their document ids are digests of those
      texts, so two such rows share an id only through a collision of the
      digest. */
  lemma CombinedTextInjective(r1: Row, r2: Row)
    requires '\n' !in r1.questionTitle && '\n' !in r1.questionBody
    requires '\n' !in r2.questionTitle && '\n' !in r2.questionBody
    ensures CombinedText(r1) == CombinedText(r2) <==> r1 == r2
  {
    ParseCombinedText(r1);
    ParseCombinedText(r2);
  }

  /** Moving a `"\nBody: "` from the end of the title to the front of the body
      leaves the combined text unchanged. */
  lemma ShiftBodyTag(a: string, b: string, c: string, d: string)
    ensures CombinedText(Row(a + BodyTag + b, c, d)) == CombinedText(Row(a, b + BodyTag + c, d))
  {
    var prefix := TitleTag + a + BodyTag + b;
    assert TitleTag + (a + BodyTag + b) == prefix;
    assert TitleTag + a + BodyTag + (b + BodyTag + c) == prefix + BodyTag + c;
  }

  /** Without that condition two different rows can share a combined text,
      and so a document id. Deduplication then skips the second when it comes
      on a later page than the first one's flush; on the same page both are
      embedded and written under the one id. */
  lemma CombinedTextCollision()
    ensures var r1 := Row("a\nBody: b", "c", "d");
            var r2 := Row("a", "b\nBody: c", "d");
            r1 != r2 && CombinedText(r1) == CombinedText(r2)
  {
    assert "a\nBody: b" == "a" + BodyTag + "b";
    assert "b\nBody: c" == "b" + BodyTag + "c";
    ShiftBodyTag("a", "b", "c", "d");
    assert |"a\nBody: b"| != |"a"|;
  }
}

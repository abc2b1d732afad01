/** The dialog for sharing a workspace file by e-mail: the recipient field
    holds comma-separated addresses, a theme and a message go with them, and
    the file's link is shown for copying. */
module ShareModal {
  import opened Wrappers
  import opened Js
  import opened Types

  function NonEmpty(e: string): bool { e != "" }

  /** `c` stays out of a string when it is trimmed. */
  lemma TrimKeepsOut(s: string, c: char)
    requires c !in s
    ensures c !in Trim(s)
  {
    var r := Trim(s);
    forall i | 0 <= i < |r| ensures r[i] != c {
      assert r[i] == s[LeadingSpaces(s) + i];
    }
  }

  /** `.map(e => e.trim())` over the comma-free pieces. */
  function TrimPieces(pieces: seq<string>): (r: seq<string>)
    requires forall i :: 0 <= i < |pieces| ==> ',' !in pieces[i]
    ensures |r| == |pieces|
    ensures forall i :: 0 <= i < |r| ==> r[i] == Trim(pieces[i]) && ',' !in r[i]
  {
    forall i | 0 <= i < |pieces| ensures ',' !in Trim(pieces[i]) {
      TrimKeepsOut(pieces[i], ',');
    }
    Map(pieces, Trim)
  }

  /** Pieces that are already trimmed are kept as they are. */
  lemma TrimPiecesTrimmed(pieces: seq<string>)
    requires forall i :: 0 <= i < |pieces| ==> ',' !in pieces[i] && IsTrimmed(pieces[i])
    ensures TrimPieces(pieces) == pieces
  {
    forall i | 0 <= i < |pieces| ensures Trim(pieces[i]) == pieces[i] {
      TrimOfTrimmed(pieces[i]);
    }
  }

  /** `emails.split(',').map(e => e.trim()).filter(e => e)`. */
  function ParseEmails(emails: string): (r: seq<string>)
    ensures forall e :: e in r ==> e != "" && IsTrimmed(e) && ',' !in e
    ensures |r| <= Occurrences(emails, ',') + 1
  {
    SplitLength(emails, ',');
    Filter(TrimPieces(Split(emails, ',')), NonEmpty)
  }

  /** Whatever is typed between the commas, parsing gives the trimmed
      pieces that are not blank, in the order typed; addresses that are
      already trimmed and non-empty come back exactly as typed. Every
      string is such a join, by `Split`, so this fixes the result for all
      inputs. */
  lemma ParseJoin(pieces: seq<string>)
    requires forall i :: 0 <= i < |pieces| ==> ',' !in pieces[i]
    ensures ParseEmails(Join(pieces, ',')) == Filter(Map(pieces, Trim), NonEmpty)
    ensures (forall i :: 0 <= i < |pieces| ==> pieces[i] != "" && IsTrimmed(pieces[i])) ==>
            ParseEmails(Join(pieces, ',')) == pieces
  {
    if pieces == [] {
      assert Split("", ',') == [""];
      assert TrimPieces([""])[0] == Trim("");
      assert Filter(TrimPieces([""]), NonEmpty) == [];
      assert Map(pieces, Trim) == [];
    } else {
      SplitJoin(pieces, ',');
      assert TrimPieces(pieces) == Map(pieces, Trim);
      if forall i :: 0 <= i < |pieces| ==> pieces[i] != "" && IsTrimmed(pieces[i]) {
        TrimPiecesTrimmed(pieces);
        FilterAll(pieces, NonEmpty);
      }
    }
  }

  /** Spaces around the addresses go, and an empty place between two
      commas is skipped. */
  lemma ParseExample(typed: string)
    requires typed == " a , ,b "
    ensures ParseEmails(typed) == ["a", "b"]
  {
    var pieces := [" a ", " ", "b "];
    ExampleJoin();
    ParseJoin(pieces);
    ExampleMap(pieces);
    ExampleFilter(Map(pieces, Trim));
  }

  lemma ExampleMap(pieces: seq<string>)
    requires pieces == [" a ", " ", "b "]
    ensures Map(pieces, Trim) == ["a", "", "b"]
  {
    ExampleTrims();
  }

  lemma ExampleJoin()
    ensures Join([" a ", " ", "b "], ',') == " a , ,b "
  {
    var pieces := [" a ", " ", "b "];
    assert Join(pieces[2..], ',') == "b ";
    assert Join(pieces[1..], ',') == " ,b ";
  }

  lemma ExampleTrims()
    ensures Trim(" a ") == "a" && Trim(" ") == "" && Trim("b ") == "b"
  {
    assert Trim(" a ") == "a" by {
      assert LeadingSpaces(" a ") == 1 by { assert " a "[1..] == "a "; }
      assert TrailingStart(" a ") == 2 by { assert " a "[..2] == " a"; }
    }
    assert AllSpace(" ");
    assert Trim("b ") == "b" by {
      assert LeadingSpaces("b ") == 0;
      assert TrailingStart("b ") == 1 by { assert "b "[..1] == "b"; }
    }
  }

  lemma ExampleFilter(t: seq<string>)
    requires t == ["a", "", "b"]
    ensures Filter(t, NonEmpty) == ["a", "b"]
  {
    assert Filter(t[2..], NonEmpty) == ["b"] + Filter(t[3..], NonEmpty);
    assert Filter(t[1..], NonEmpty) == Filter(t[2..], NonEmpty);
  }

  datatype ShareForm = ShareForm(
    emails: string,
    selectedTheme: EmailTheme,
    message: string,
    linkCopied: bool)

  /** The fields as first shown and after every close. */
  const EmptyShareForm := ShareForm("", Professional, "", false)

  /** What `onShare` receives. */
  datatype ShareCall = ShareCall(emails: seq<string>, theme: EmailTheme, message: string)

  /** `handleClose`: the fields go back to their defaults. */
  function HandleClose(f: ShareForm): (r: ShareForm)
    ensures r.emails == "" && r.message == "" && r.selectedTheme == Professional && !r.linkCopied
  {
    EmptyShareForm
  }

  /** `handleSubmit`: one call with the parsed addresses, the theme and the
      message, then the dialog closes with its fields reset. */
  function HandleSubmit(f: ShareForm): (r: (ShareCall, ShareForm))
    ensures r.0.theme == f.selectedTheme && r.0.message == f.message
    ensures r.0.emails == ParseEmails(f.emails)
    ensures r.1 == HandleClose(f)
  {
    (ShareCall(ParseEmails(f.emails), f.selectedTheme, f.message), HandleClose(f))
  }

  /** A submitted form sends no blank address, and a second submit right
      after it sends nothing. */
  lemma SubmitThenSubmit(f: ShareForm)
    ensures forall e :: e in HandleSubmit(f).0.emails ==> e != "" && IsTrimmed(e)
    ensures HandleSubmit(HandleSubmit(f).1).0.emails == []
  {
    ParseJoin([]);
  }

  const LinkBase := "https://workspace.example.com/file/"

  /** The link shown (and copied) for a file. */
  function ShareLink(fileId: string): (r: string)
    ensures StartsWith(r, LinkBase) && r[|LinkBase|..] == fileId
  {
    LinkBase + fileId
  }

  /** Different files get different links. */
  lemma ShareLinkInjective(a: string, b: string)
    ensures ShareLink(a) == ShareLink(b) <==> a == b
  {
    assert ShareLink(a)[|LinkBase|..] == a;
    assert ShareLink(b)[|LinkBase|..] == b;
  }

  /** The link the dialog shows: nothing without a file, and nothing while
      it is closed. */
  function ShownLink(file: Option<WorkspaceFile>, isOpen: bool): (r: Option<string>)
    ensures r.None? <==> file.None? || !isOpen
    ensures r.Some? ==> r.value == ShareLink(file.value.id)
  {
    if file.None? || !isOpen then None else Some(ShareLink(file.value.id))
  }
}

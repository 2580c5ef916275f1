/** The resume reviewer of frontend/src/components/ResumeReviewer.jsx: text
    extraction from the pages of a PDF, the PDF file rule, and the
    `uploading`/`analyzing`/`review` flags of `handleReview`. */
module ResumeReviewer {
  import opened Js
  import FileRules

  const TypeMessage := "Select PDF file only"
  const FailText := "Something went wrong while reviewing your resume."

  /** The text `extractTextFromPdf` assembles from the item strings of each page
      (`content.items.map(item => item.str)`): each page's items joined by " " and
      followed by a newline, pages in order. */
  function PdfText(pages: seq<seq<string>>): string {
    if pages == [] then ""
    else PdfText(pages[..|pages| - 1]) + Join(pages[|pages| - 1], " ") + "\n"
  }

  /** The loop of `extractTextFromPdf` over pages 1..numPages. pdf.js itself (parsing
      the file, `getPage`, `getTextContent`) is the input `pages`. */
  method ExtractText(pages: seq<seq<string>>) returns (text: string)
    ensures text == PdfText(pages)
  {
    text := "";
    var i := 1;
    while i <= |pages|
      invariant 1 <= i <= |pages| + 1
      invariant text == PdfText(pages[..i - 1])
    {
      var pageText := Join(pages[i - 1], " ");
      assert pages[..i] == pages[..i - 1] + [pages[i - 1]];
      assert pages[..i][..i - 1] == pages[..i - 1];
      text := text + pageText + "\n";
      i := i + 1;
    }
    assert pages[..|pages|] == pages;
  }

  /** The text of a document is the text of its first pages followed by the text of
      the rest. */
  lemma {:induction false} PdfTextAppend(a: seq<seq<string>>, b: seq<seq<string>>)
    ensures PdfText(a + b) == PdfText(a) + PdfText(b)
  {
    if b != [] {
      var ab := a + b;
      assert ab[..|ab| - 1] == a + b[..|b| - 1];
      assert ab[|ab| - 1] == b[|b| - 1];
      PdfTextAppend(a, b[..|b| - 1]);
    } else {
      assert a + b == a;
    }
  }

  /** The text of each page: its items joined by " ". */
  function PageLines(pages: seq<seq<string>>): (r: seq<string>)
    ensures |r| == |pages|
    ensures forall k :: 0 <= k < |pages| ==> r[k] == Join(pages[k], " ")
  {
    if pages == [] then [] else [Join(pages[0], " ")] + PageLines(pages[1..])
  }

  /** No item string holds a newline. */
  predicate NoNewlines(pages: seq<seq<string>>) {
    forall k, j :: 0 <= k < |pages| && 0 <= j < |pages[k]| ==> '\n' !in pages[k][j]
  }

  lemma {:induction false} JoinNoNewline(items: seq<string>)
    requires forall j :: 0 <= j < |items| ==> '\n' !in items[j]
    ensures '\n' !in Join(items, " ")
  {
    if |items| > 1 {
      JoinNoNewline(items[1..]);
      assert Join(items, " ") == items[0] + " " + Join(items[1..], " ");
    }
  }

  /** Splitting the text on newlines gives back one line per page, in order, and a
      last empty field, when no item holds a newline. So the text has exactly one
      newline per page and is empty for a document without pages. */
  lemma {:induction false} PdfTextLines(pages: seq<seq<string>>)
    requires NoNewlines(pages)
    ensures Split(PdfText(pages), '\n') == PageLines(pages) + [""]
    ensures Count(PdfText(pages), '\n') == |pages|
  {
    if pages == [] {
    } else {
      var rest := pages[1..];
      assert pages == [pages[0]] + rest;
      PdfTextAppend([pages[0]], rest);
      assert [pages[0]][..0] == [];
      assert PdfText([pages[0]]) == Join(pages[0], " ") + "\n";
      assert NoNewlines(rest) by {
        forall k, j | 0 <= k < |rest| && 0 <= j < |rest[k]| ensures '\n' !in rest[k][j] {
          assert rest[k] == pages[k + 1];
        }
      }
      JoinNoNewline(pages[0]);
      PdfTextLines(rest);
      SplitPrefix(Join(pages[0], " "), PdfText(rest), '\n');
      assert PdfText(pages) == Join(pages[0], " ") + ['\n'] + PdfText(rest);
    }
    SplitLength(PdfText(pages), '\n');
  }

  /** The body posted to `/api/users/review`. */
  datatype ReviewRequest = ReviewRequest(resumeData: string, pdfUrl: string)

  /** The reviewer. `loggedIn` stands for the context's `user`; `requests` and
      `uploads` record what left the page. */
  class Reviewer {
    const loggedIn: bool
    var pdf: Maybe<FileRules.FileInfo>
    var review: Maybe<string>
    var uploading: bool
    var analyzing: bool
    var uploads: seq<FileRules.FileInfo>
    var requests: seq<ReviewRequest>

    constructor (loggedIn: bool)
      ensures this.loggedIn == loggedIn
      ensures pdf == Undefined && review == Undefined && !uploading && !analyzing
      ensures uploads == [] && requests == []
    {
      this.loggedIn := loggedIn;
      pdf, review := Undefined, Undefined;
      uploading, analyzing := false, false;
      uploads, requests := [], [];
    }

    /** The submit button is disabled while either flag is set. */
    predicate Disabled()
      reads this
    {
      uploading || analyzing
    }

    /** The submit button's text. */
    function Label(): (r: string)
      reads this
      ensures !Disabled() <==> r == "Submit for Review"
      ensures uploading ==> r == "Uploading..."
      ensures !uploading && analyzing ==> r == "Analyzing..."
    {
      if uploading then "Uploading..." else if analyzing then "Analyzing..." else "Submit for Review"
    }

    /** `handleFileChange`: only an accepted PDF becomes `pdf`. */
    method HandleFileChange(file: Maybe<FileRules.FileInfo>) returns (toast: Maybe<string>)
      modifies this
      ensures var d := FileRules.Decide(file, "application/pdf", TypeMessage);
              (d.Accept? ==> pdf == Defined(d.file) && toast == Undefined)
              && (d.Reject? ==> pdf == old(pdf) && toast == Defined(d.message))
              && (d.Ignore? ==> pdf == old(pdf) && toast == Undefined)
      ensures review == old(review) && uploading == old(uploading) && analyzing == old(analyzing)
      ensures uploads == old(uploads) && requests == old(requests)
    {
      var d := FileRules.Decide(file, "application/pdf", TypeMessage);
      match d
      case Ignore => toast := Undefined;
      case Reject(m) => toast := Defined(m);
      case Accept(f) => pdf := Defined(f); toast := Undefined;
    }

    /** `handleReview` up to the upload. A click on the disabled button does
        nothing; without a PDF there is a toast and no upload. */
    method ReviewStart() returns (toast: Maybe<string>)
      modifies this
      ensures old(Disabled()) ==> toast == Undefined && uploading == old(uploading) && uploads == old(uploads)
      ensures !old(Disabled()) && pdf.Undefined? ==>
                toast == Defined("Please upload your resume first!") && !uploading && uploads == old(uploads)
      ensures !old(Disabled()) && pdf.Defined? ==>
                toast == Defined("Uploading and reviewing resume...") && uploading && uploads == old(uploads) + [pdf.value]
      ensures pdf == old(pdf) && review == old(review) && analyzing == old(analyzing) && requests == old(requests)
    {
      if uploading || analyzing {
        return Undefined;
      }
      if pdf.Undefined? {
        return Defined("Please upload your resume first!");
      }
      uploading := true;
      uploads := uploads + [pdf.value];
      toast := Defined("Uploading and reviewing resume...");
    }

    /** After the upload: `url` is the host's `secure_url` (absent when the upload
        failed) and `pages` the item strings pdf.js reads (absent when it fails).
        The text is extracted, and the review request is posted unless reading the
        token fails for want of a user. Every failure clears both flags. */
    method UploadSettled(url: Maybe<string>, pages: Maybe<seq<seq<string>>>) returns (toast: Maybe<string>)
      requires uploading && !analyzing
      modifies this
      ensures !uploading
      ensures var sent := url.Defined? && pages.Defined? && loggedIn;
              (sent ==> analyzing && toast == Undefined
                        && requests == old(requests) + [ReviewRequest(PdfText(pages.value), url.value)])
              && (!sent ==> !analyzing && toast == Defined(FailText) && requests == old(requests))
      ensures pdf == old(pdf) && review == old(review) && uploads == old(uploads)
    {
      if url.Undefined? {
        uploading, analyzing := false, false;
        return Defined(FailText);
      }
      uploading := false;
      if pages.Undefined? {
        analyzing := false;
        return Defined(FailText);
      }
      var text := ExtractText(pages.value);
      analyzing := true;
      if !loggedIn {
        uploading, analyzing := false, false;
        return Defined(FailText);
      }
      requests := requests + [ReviewRequest(text, url.value)];
      toast := Undefined;
    }

    /** After the review request: `reply` is absent when it failed, and otherwise
        holds `res.data.data`. The review is replaced only when that is present;
        the flags end cleared. */
    method ReviewSettled(reply: Maybe<Maybe<string>>) returns (toast: string)
      requires analyzing && !uploading
      modifies this
      ensures !uploading && !analyzing && !Disabled()
      ensures reply.Defined? && reply.value.Defined? ==>
                review == reply.value && toast == "AI review generated successfully!"
      ensures reply.Defined? && reply.value.Undefined? ==>
                review == old(review) && toast == "AI review failed: No review data returned."
      ensures reply.Undefined? ==> review == old(review) && toast == FailText
      ensures pdf == old(pdf) && uploads == old(uploads) && requests == old(requests)
    {
      if reply.Undefined? {
        toast := FailText;
      } else if reply.value.Defined? {
        review := reply.value;
        toast := "AI review generated successfully!";
      } else {
        toast := "AI review failed: No review data returned.";
      }
      analyzing := false;
    }
  }
}

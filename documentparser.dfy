/**
 * `DocumentParser` (src/utils/documentParser.ts): which parser a file name
 * selects, which names are supported, the `accept` string of the file picker,
 * and the word count stored with a parsed text. The PDF and Word extractors
 * are libraries; what they give back is a parameter.
 */
module DocumentParser {
  import opened Wrappers
  import opened Text

  // Extensions

  /** `name.toLowerCase().split('.').pop() || ''`: the lower-cased text after the last dot. */
  function Extension(name: string): string {
    var parts := Split(ToLowerAscii(name), '.');
    parts[|parts| - 1]
  }

  lemma {:induction false} JoinLast(parts: seq<string>, sep: string)
    requires |parts| >= 2
    ensures Join(parts, sep) == Join(parts[..|parts| - 1], sep) + sep + parts[|parts| - 1]
    decreases |parts|
  {
    if |parts| > 2 {
      JoinLast(parts[1..], sep);
      assert parts[1..][..|parts| - 2] == parts[..|parts| - 1][1..];
    }
  }

  /**
   * The extension holds no dot; a name without a dot is its own (lower-cased)
   * extension, and otherwise the extension is what follows the last dot.
   */
  lemma ExtensionIsLastPart(name: string)
    ensures var lower, ext := ToLowerAscii(name), Extension(name);
      && '.' !in ext
      && ('.' !in lower ==> ext == lower)
      && ('.' in lower ==> |ext| < |lower| && lower[|lower| - |ext| - 1] == '.' && lower[|lower| - |ext|..] == ext)
  {
    var lower := ToLowerAscii(name);
    var parts := Split(lower, '.');
    SplitJoin(lower, '.');
    if '.' !in lower {
      SplitWithoutSeparator(lower, '.');
    }
    if |parts| >= 2 {
      JoinLast(parts, ".");
    }
  }

  const SupportedExtensions: seq<string> :=
    ["pdf", "doc", "docx", "txt", "md", "json", "csv", "js", "ts", "jsx", "tsx", "py", "java", "cpp", "c",
     "html", "css", "xml", "yaml", "yml"]

  /** The three ways `parseFile` reads a file. */
  datatype FileKind = Pdf | Word | PlainText

  /** The `switch` of `parseFile`. */
  function KindOf(ext: string): Result<FileKind, string> {
    if ext == "pdf" then Success(Pdf)
    else if ext == "doc" || ext == "docx" then Success(Word)
    else if ext in ["txt", "md", "json", "csv", "js", "ts", "jsx", "tsx", "py", "java", "cpp", "c",
                    "html", "css", "xml", "yaml", "yml"] then Success(PlainText)
    else Failure("Unsupported file type: ." + ext)
  }

  /** `isSupported` */
  predicate IsSupported(filename: string) {
    Extension(filename) in SupportedExtensions
  }

  /**
   * The supported list and the switch agree: a name is supported exactly when
   * `parseFile` has a parser for it, and an unsupported one is refused with
   * its extension in the message.
   */
  lemma SupportedIffParsed(filename: string)
    ensures IsSupported(filename) <==> KindOf(Extension(filename)).Success?
    ensures !IsSupported(filename) ==> KindOf(Extension(filename)) == Failure("Unsupported file type: ." + Extension(filename))
  {
  }

  /** `getAcceptString`: each extension with a leading dot, joined by commas. */
  function AcceptString(): string {
    Join(Dotted(SupportedExtensions), ",")
  }

  function Dotted(exts: seq<string>): seq<string> {
    seq(|exts|, i requires 0 <= i < |exts| => "." + exts[i])
  }

  /** The accept string splits on commas into exactly the supported extensions, each after a dot, in order. */
  lemma AcceptStringParts()
    ensures |Split(AcceptString(), ',')| == |SupportedExtensions|
    ensures forall i :: 0 <= i < |SupportedExtensions| ==> Split(AcceptString(), ',')[i] == "." + SupportedExtensions[i]
  {
    var d := Dotted(SupportedExtensions);
    forall i | 0 <= i < |d| ensures ',' !in d[i] {
      assert d[i] == "." + SupportedExtensions[i];
    }
    assert "," == [','];
    JoinSplit(d, ',');
  }

  // Word counts

  /**
   * `s.split(/\s+/)`: the pieces between maximal runs of white space; text
   * that starts or ends with white space gives an empty first or last piece.
   */
  function SplitOnWhitespace(s: string): (pieces: seq<string>)
    ensures |pieces| >= 1
    decreases |s|
  {
    if s == [] then [""]
    else if IsWhitespace(s[0]) then
      assert TrimStart(s) == TrimStart(s[1..]);
      [""] + SplitOnWhitespace(TrimStart(s))
    else
      var rest := SplitOnWhitespace(s[1..]);
      [[s[0]] + rest[0]] + rest[1..]
  }

  /** The word count `parseText` stores: the number of pieces. */
  function WordCount(content: string): nat {
    |SplitOnWhitespace(content)|
  }

  /** No piece holds white space, and every piece but the first and the last is non-empty. */
  lemma {:induction false} SplitOnWhitespacePieces(s: string)
    ensures forall i :: 0 <= i < |SplitOnWhitespace(s)| ==> NoWhitespace(SplitOnWhitespace(s)[i])
    ensures forall i :: 0 < i < |SplitOnWhitespace(s)| - 1 ==> SplitOnWhitespace(s)[i] != ""
    ensures s != [] && !IsWhitespace(s[0]) ==> SplitOnWhitespace(s)[0] != ""
    decreases |s|
  {
    if s != [] {
      if IsWhitespace(s[0]) {
        var t := TrimStart(s);
        assert t == TrimStart(s[1..]);
        TrimStartDropsLeadingWhitespace(s);
        SplitOnWhitespacePieces(t);
      } else {
        SplitOnWhitespacePieces(s[1..]);
      }
    }
  }

  lemma {:induction false} SplitOnWhitespaceWord(w: string, rest: string)
    requires NoWhitespace(w)
    ensures var r := SplitOnWhitespace(rest);
      SplitOnWhitespace(w + rest) == [w + r[0]] + r[1..]
    decreases |w|
  {
    if w != [] {
      SplitOnWhitespaceWord(w[1..], rest);
      assert (w + rest)[0] == w[0] && (w + rest)[1..] == w[1..] + rest;
      assert [w[0]] + (w[1..] + SplitOnWhitespace(rest)[0]) == w + SplitOnWhitespace(rest)[0];
    } else {
      var r := SplitOnWhitespace(rest);
      assert w + rest == rest && w + r[0] == r[0];
      assert [r[0]] + r[1..] == r;
    }
  }

  /**
   * Words without white space, joined by single spaces, split back into the
   * same words: on such text the count is the number of words.
   */
  lemma {:induction false} SplitOnWhitespaceJoin(words: seq<string>)
    requires |words| >= 1
    requires forall i :: 0 <= i < |words| ==> words[i] != "" && NoWhitespace(words[i])
    ensures SplitOnWhitespace(Join(words, " ")) == words
    ensures WordCount(Join(words, " ")) == |words|
    decreases |words|
  {
    if |words| == 1 {
      SplitOnWhitespaceWord(words[0], "");
      assert words[0] + "" == words[0];
    } else {
      var tail := Join(words[1..], " ");
      SplitOnWhitespaceJoin(words[1..]);
      assert tail != [] && !IsWhitespace(tail[0]) by {
        assert |words[1..]| == 1 ==> tail == words[1];
        assert |words[1..]| > 1 ==> tail[0] == words[1][0];
      }
      var spaced := " " + tail;
      assert TrimStart(spaced) == tail by {
        assert spaced[1..] == tail;
      }
      assert SplitOnWhitespace(spaced) == [""] + words[1..];
      SplitOnWhitespaceWord(words[0], spaced);
      assert Join(words, " ") == words[0] + spaced;
      assert words[0] + "" == words[0];
      assert [words[0]] + words[1..] == words;
    }
  }

  /** Empty content still counts one word, and a trailing line break adds one more. */
  lemma WordCountCountsPieces()
    ensures WordCount("") == 1
    ensures WordCount("hello") == 1 && WordCount("hello\n") == 2
  {
    SplitOnWhitespaceJoin(["hello"]);
    assert Join(["hello"], " ") == "hello";
    assert TrimStart("\n") == "" by { assert "\n"[1..] == ""; }
    SplitOnWhitespaceWord("hello", "\n");
    assert "hello" + "\n" == "hello\n";
  }

  // Parsing

  /** `ParsedDocument`; `pageCount` and `title` are left unset by the modelled parsers. */
  datatype ParsedDocument = ParsedDocument(content: string, wordCount: Option<nat>, pageCount: Option<nat>)

  /** What the file reader reports: the loaded text, or an error event. */
  datatype ReadOutcome = Loaded(text: string) | ReadFailed

  /**
   * `parseText` over `readFileAsText`: an error event and an empty result
   * (which is falsy) both reject; otherwise the text with its word count.
   */
  function ParseText(read: ReadOutcome): Result<ParsedDocument, string> {
    match read
    case ReadFailed => Failure("File reading error")
    case Loaded(text) =>
      if text == "" then Failure("Failed to read file")
      else Success(ParsedDocument(text, Some(WordCount(text)), None))
  }

  /** `parseWord`, given what the Word extractor gives back. */
  function ParseWord(extracted: Result<string, string>): Result<ParsedDocument, string> {
    match extracted
    case Failure(m) => Failure("Failed to parse Word document: " + m)
    case Success(text) => Success(ParsedDocument(text, Some(WordCount(text)), None))
  }

  /** `parseFile`: dispatch on the extension; the PDF outcome is taken as given. */
  function ParseFile(name: string, read: ReadOutcome, word: Result<string, string>, pdf: Result<ParsedDocument, string>): Result<ParsedDocument, string> {
    match KindOf(Extension(name))
    case Failure(m) => Failure(m)
    case Success(Pdf) => pdf
    case Success(Word) => ParseWord(word)
    case Success(PlainText) => ParseText(read)
  }

  /**
   * An unsupported name is refused whatever the file holds; a supported text
   * file keeps its content exactly, with its word count, unless it is empty,
   * which is refused as unreadable.
   */
  lemma ParseFileProperties(name: string, read: ReadOutcome, word: Result<string, string>, pdf: Result<ParsedDocument, string>)
    ensures !IsSupported(name) ==> ParseFile(name, read, word, pdf) == Failure("Unsupported file type: ." + Extension(name))
    ensures KindOf(Extension(name)) == Success(PlainText) ==>
      (ParseFile(name, read, word, pdf).Success? <==> read.Loaded? && read.text != "")
    ensures ParseFile(name, read, word, pdf).Success? && KindOf(Extension(name)) == Success(PlainText) ==>
      ParseFile(name, read, word, pdf).value == ParsedDocument(read.text, Some(WordCount(read.text)), None)
    ensures KindOf(Extension(name)) == Success(PlainText) && read == Loaded("") ==>
      ParseFile(name, read, word, pdf) == Failure("Failed to read file")
  {
    SupportedIffParsed(name);
  }
}

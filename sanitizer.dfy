/**
 * cleanXmlContent and analyzeXmlError of the queue reader: the cleaning a
 * message goes through before the well-formedness check, and the diagnosis
 * written when that check fails.
 */
module Sanitizer {
  import opened Wrappers
  import opened JavaText

  /** The invalid prefixes, in the order they are tried. */
  const InvalidPrefixes: seq<string> :=
    ["Trx:", "TRX:", "MSG:", "Data:", "XML:", "Response:", "Request:", "Message:"]

  /** The byte-order mark U+FEFF. */
  const Bom: char := '\U{FEFF}'

  /** Index of the first prefix, from position i on, that s starts with; |InvalidPrefixes| when none does. */
  function FirstPrefixFrom(s: string, i: nat): (k: nat)
    requires i <= |InvalidPrefixes|
    ensures i <= k <= |InvalidPrefixes|
    ensures k < |InvalidPrefixes| ==> StartsWith(s, InvalidPrefixes[k])
    ensures forall j :: i <= j < k ==> !StartsWith(s, InvalidPrefixes[j])
    decreases |InvalidPrefixes| - i
  {
    if i == |InvalidPrefixes| || StartsWith(s, InvalidPrefixes[i]) then i
    else FirstPrefixFrom(s, i + 1)
  }

  /** The first prefix s starts with is the one at index i when none before it matches. */
  lemma FirstMatchingPrefix(s: string, i: nat)
    requires i <= |InvalidPrefixes|
    requires i < |InvalidPrefixes| ==> StartsWith(s, InvalidPrefixes[i])
    requires forall j :: 0 <= j < i ==> !StartsWith(s, InvalidPrefixes[j])
    ensures FirstPrefixFrom(s, 0) == i
  {
  }

  /** The k-th prefix is the first in list order that s starts with. */
  predicate IsFirstMatch(s: string, k: int) {
    && 0 <= k < |InvalidPrefixes|
    && StartsWith(s, InvalidPrefixes[k])
    && forall j :: 0 <= j < k ==> !StartsWith(s, InvalidPrefixes[j])
  }

  /** s starts with none of the prefixes. */
  predicate NoPrefixMatch(s: string) {
    forall k :: 0 <= k < |InvalidPrefixes| ==> !StartsWith(s, InvalidPrefixes[k])
  }

  /** FirstPrefixFrom(s, 0) is whichever prefix matches first, and |InvalidPrefixes| when none matches. */
  lemma FirstMatchIsFirstPrefix(s: string)
    ensures forall k :: IsFirstMatch(s, k) ==> FirstPrefixFrom(s, 0) == k
    ensures NoPrefixMatch(s) ==> FirstPrefixFrom(s, 0) == |InvalidPrefixes|
  {
    forall k | IsFirstMatch(s, k) ensures FirstPrefixFrom(s, 0) == k {
      FirstMatchingPrefix(s, k);
    }
    if NoPrefixMatch(s) {
      FirstMatchingPrefix(s, |InvalidPrefixes|);
    }
  }

  /** Removes the first matching prefix (case-sensitive, list order) and re-trims; s itself when none matches. */
  function StripPrefix(s: string): (r: string)
    ensures IsInfix(r, s)
    ensures Trimmed(s) ==> Trimmed(r)
    ensures forall k {:trigger IsFirstMatch(s, k)} :: IsFirstMatch(s, k) ==> r == Trim(s[|InvalidPrefixes[k]|..])
    ensures NoPrefixMatch(s) ==> r == s
  {
    FirstMatchIsFirstPrefix(s);
    var k := FirstPrefixFrom(s, 0);
    if k < |InvalidPrefixes| then
      var rest := s[|InvalidPrefixes[k]|..];
      SuffixIsInfix(s, |InvalidPrefixes[k]|);
      InfixTransitive(Trim(rest), rest, s);
      Trim(rest)
    else
      assert OccursAt(s, s, 0);
      s
  }

  /** Removes one leading byte-order mark. */
  function StripBom(s: string): (r: string)
    ensures r == (if s != [] && s[0] == Bom then s[1..] else s)
  {
    if StartsWith(s, [Bom]) then s[1..] else s
  }

  /** Discards everything before the first '<'; leaves s as it is when it holds no '<'. */
  function CutToMarker(s: string): (r: string)
    ensures '<' in s ==> r != [] && r[0] == '<' && r == s[IndexOf(s, '<')..]
    ensures '<' !in s ==> r == s
  {
    if StartsWith(s, "<") then s
    else
      var xmlStart := IndexOf(s, '<');
      if xmlStart > 0 then s[xmlStart..] else s
  }

  /** cleanXmlContent: trim, strip one prefix, strip one BOM, cut to the first '<'. */
  function Sanitize(content: string): (r: string)
    ensures |r| <= |content|
    ensures '<' in r ==> r[0] == '<'
  {
    if content == [] then content
    else CutToMarker(StripBom(StripPrefix(Trim(content))))
  }

  /** The text CutToMarker works on: the input trimmed, stripped of its prefix and of its BOM. */
  function Unmarked(content: string): string {
    StripBom(StripPrefix(Trim(content)))
  }

  /**
   * The output holds a '<' exactly when the cleaned text does, and then it
   * starts with '<' and is the suffix of that text from its first '<'.
   * Without a '<' the cleaned text is returned as it is.
   */
  lemma SanitizeCutsToFirstMarker(content: string)
    requires content != []
    ensures '<' in Sanitize(content) <==> '<' in Unmarked(content)
    ensures '<' in Unmarked(content) ==>
      Sanitize(content)[0] == '<' && Sanitize(content) == Unmarked(content)[IndexOf(Unmarked(content), '<')..]
    ensures '<' !in Unmarked(content) ==> Sanitize(content) == Unmarked(content)
  {
  }

  /** The cleaner only removes: its output is a contiguous run of its input. */
  lemma SanitizeOnlyRemoves(content: string)
    ensures IsInfix(Sanitize(content), content)
  {
    if content == [] {
      assert OccursAt(content, content, 0);
    } else {
      var t := Trim(content);
      var p := StripPrefix(t);
      var b := StripBom(p);
      InfixTransitive(p, t, content);
      BomStripIsInfix(p);
      InfixTransitive(b, p, content);
      CutIsInfix(b);
      InfixTransitive(CutToMarker(b), b, content);
    }
  }

  lemma BomStripIsInfix(p: string)
    ensures IsInfix(StripBom(p), p)
  {
    if StripBom(p) != p {
      SuffixIsInfix(p, 1);
    } else {
      assert OccursAt(p, p, 0);
    }
  }

  lemma CutIsInfix(b: string)
    ensures IsInfix(CutToMarker(b), b)
  {
    if CutToMarker(b) != b {
      SuffixIsInfix(b, IndexOf(b, '<'));
    } else {
      assert OccursAt(b, b, 0);
    }
  }

  /** No invalid prefix begins with '<'. */
  lemma NoPrefixOpensWithMarker(s: string)
    requires s != [] && s[0] == '<'
    ensures FirstPrefixFrom(s, 0) == |InvalidPrefixes|
  {
    NoPrefixMatches(s);
  }

  /** Cutting a BOM-stripped text without surrounding whitespace to its first '<' leaves it without any. */
  lemma CutKeepsTrimmed(p: string)
    requires Trimmed(p) && '<' in CutToMarker(StripBom(p))
    ensures CutToMarker(StripBom(p))[0] == '<' && Trimmed(CutToMarker(StripBom(p)))
  {
    var b := StripBom(p);
    var r := CutToMarker(b);
    var i := IndexOf(b, '<');
    var d := if b != p then 1 else 0;
    assert b == p[d..];
    assert r == p[d + i..];
    assert r[|r| - 1] == p[|p| - 1];
  }

  /** An output holding a '<' opens with it and has no whitespace at either end. */
  lemma MarkupOutputIsTrimmed(content: string)
    requires '<' in Sanitize(content)
    ensures Sanitize(content)[0] == '<' && Trimmed(Sanitize(content))
  {
    assert content != [];
    CutKeepsTrimmed(StripPrefix(Trim(content)));
  }

  /** A text opening with '<' and without surrounding whitespace is left as it is. */
  lemma MarkupIsFixed(r: string)
    requires r != [] && r[0] == '<' && Trimmed(r)
    ensures Sanitize(r) == r
  {
    TrimOfTrimmed(r);
    NoPrefixOpensWithMarker(r);
    assert StripPrefix(r) == r;
    assert StripBom(r) == r;
  }

  /**
   * Cleaning an output that holds a '<' changes nothing. (Cleaning is not
   * idempotent in general: see BomThenSpaceNeedsSecondPass and
   * DoubledPrefixNeedsSecondPass.)
   */
  lemma SanitizeIdempotentOnMarkup(content: string)
    requires '<' in Sanitize(content)
    ensures Sanitize(Sanitize(content)) == Sanitize(content)
  {
    MarkupOutputIsTrimmed(content);
    MarkupIsFixed(Sanitize(content));
  }

  /** Every invalid prefix opens with one of 'T', 'M', 'D', 'X', 'R'. */
  lemma NoPrefixMatches(s: string)
    requires s != [] && s[0] != 'T' && s[0] != 'M' && s[0] != 'D' && s[0] != 'X' && s[0] != 'R'
    ensures FirstPrefixFrom(s, 0) == |InvalidPrefixes|
  {
    forall j | 0 <= j < |InvalidPrefixes| ensures !StartsWith(s, InvalidPrefixes[j]) {
      assert InvalidPrefixes[j][0] in "TMDXR";
    }
    FirstMatchingPrefix(s, |InvalidPrefixes|);
  }

  /** Sanitize once the trimmed, prefix-stripped text is known. */
  lemma SanitizeVia(content: string, p: string)
    requires content != [] && StripPrefix(Trim(content)) == p
    ensures Sanitize(content) == CutToMarker(StripBom(p))
  {
  }

  /** A BOM followed by a space needs a second pass: the first leaves the space in front. */
  lemma BomThenSpaceNeedsSecondPass()
    ensures Sanitize("\U{FEFF} abc") == " abc"
    ensures Sanitize(" abc") == "abc"
  {
    BomLeavesSpace();
    SpaceIsTrimmed();
  }

  lemma BomLeavesSpace()
    ensures Sanitize("\U{FEFF} abc") == " abc"
  {
    var s := "\U{FEFF} abc";
    TrimOfTrimmed(s);
    NoPrefixMatches(s);
    SanitizeVia(s, s);
    assert StripBom(s) == s[1..];
    assert '<' !in s[1..];
  }

  lemma SpaceIsTrimmed()
    ensures Sanitize(" abc") == "abc"
  {
    var s := " abc";
    assert LeadingWs(s) == 1;
    assert TrailingWs(s[1..]) == 0;
    assert Trim(s) == s[1..];
    NoPrefixMatches(s[1..]);
    SanitizeVia(s, s[1..]);
    assert '<' !in s[1..];
  }

  /** Only one prefix is removed per pass, so a doubled prefix needs a second pass. */
  lemma DoubledPrefixNeedsSecondPass()
    ensures Sanitize("Trx:MSG:abc") == "MSG:abc"
    ensures Sanitize("MSG:abc") == "abc"
  {
    TransactionPrefixFirst();
    MessagePrefixNext();
  }

  lemma TransactionPrefixFirst()
    ensures Sanitize("Trx:MSG:abc") == "MSG:abc"
  {
    var s := "Trx:MSG:abc";
    var rest := s[4..];
    assert rest == "MSG:abc";
    assert StartsWith(s, InvalidPrefixes[0]);
    assert Trimmed(rest) && Trimmed(s);
    StripsTo(s, 0, rest);
    SanitizeVia(s, rest);
    assert StripBom(rest) == rest;
    NoMarkerInMessage();
  }

  lemma NoMarkerInMessage()
    ensures '<' !in "MSG:abc"
  {
  }

  lemma MessagePrefixNext()
    ensures Sanitize("MSG:abc") == "abc"
  {
    var s := "MSG:abc";
    var rest := s[4..];
    assert rest == "abc";
    assert StartsWith(s, InvalidPrefixes[2]);
    assert Trimmed(rest) && Trimmed(s);
    assert !StartsWith(s, InvalidPrefixes[0]) by { assert InvalidPrefixes[0][0] == 'T'; }
    assert !StartsWith(s, InvalidPrefixes[1]) by { assert InvalidPrefixes[1][0] == 'T'; }
    StripsTo(s, 2, rest);
    SanitizeVia(s, rest);
    assert StripBom(rest) == rest;
    NoMarkerInRest();
  }

  lemma NoMarkerInRest()
    ensures '<' !in "abc"
  {
  }

  /** A transaction prefix in front of the document is removed before the well-formedness check. */
  lemma SanitizeStripsTransactionPrefix()
    ensures Sanitize("Trx:<policia-data/>") == "<policia-data/>"
  {
    StripsTo("Trx:<policia-data/>", 0, "<policia-data/>");
    SanitizeVia("Trx:<policia-data/>", "<policia-data/>");
  }

  /** The prefix-stripping step of a text without surrounding whitespace whose first matching prefix is the k-th. */
  lemma StripsTo(s: string, k: nat, rest: string)
    requires IsFirstMatch(s, k) && Trimmed(s) && Trimmed(rest)
    requires s[|InvalidPrefixes[k]|..] == rest
    ensures s != [] && StripPrefix(Trim(s)) == rest
  {
    TrimOfTrimmed(s);
    TrimOfTrimmed(rest);
  }

  /** The prefix loop of cleanXmlContent: tries the prefixes in order and stops at the first match. */
  method StripFirstPrefix(trimmed: string) returns (cleaned: string)
    ensures cleaned == StripPrefix(trimmed)
  {
    cleaned := trimmed;
    for i := 0 to |InvalidPrefixes|
      invariant cleaned == trimmed
      invariant forall j :: 0 <= j < i ==> !StartsWith(trimmed, InvalidPrefixes[j])
    {
      if StartsWith(cleaned, InvalidPrefixes[i]) {
        FirstMatchingPrefix(trimmed, i);
        cleaned := Trim(cleaned[|InvalidPrefixes[i]|..]);
        return;
      }
    }
    FirstMatchingPrefix(trimmed, |InvalidPrefixes|);
  }

  /** cleanXmlContent: trim, strip one prefix, strip one BOM, cut to the first '<'. */
  method CleanXmlContent(content: string) returns (cleaned: string)
    ensures cleaned == Sanitize(content)
  {
    if content == [] {
      return content;
    }
    cleaned := Trim(content);
    cleaned := StripFirstPrefix(cleaned);
    if StartsWith(cleaned, [Bom]) {
      cleaned := cleaned[1..];
    }
    if !StartsWith(cleaned, "<") {
      var xmlStart := IndexOf(cleaned, '<');
      if xmlStart > 0 {
        cleaned := cleaned[xmlStart..];
      }
    }
  }

  // ---------------------------------------------------------------- diagnosis

  /** Character.isISOControl. */
  predicate IsIsoControl(c: char) {
    c <= '\U{1F}' || ('\U{7F}' <= c <= '\U{9F}')
  }

  /** What analyzeXmlError finds out about a rejected payload. */
  datatype Diagnosis = Diagnosis(
    length: nat,                 // the payload's length
    firstChar: Option<char>,     // its first char, when it has one
    notMarkup: bool,             // non-empty and, once trimmed, not opening with '<'
    markerAt: Option<nat>,       // when notMarkup: the position of the first '<', if any
    controlAtStart: bool)        // it opens with a control char other than \n, \r, \t

  /** The facts analyzeXmlError reports about a payload that failed the well-formedness check. */
  function Diagnose(xml: string): (d: Diagnosis)
    ensures d.length == |xml|
    ensures d.firstChar == (if xml == [] then None else Some(xml[0]))
    ensures d.notMarkup <==> xml != [] && !StartsWith(Trim(xml), "<")
    ensures d.markerAt.Some? <==> d.notMarkup && '<' in xml
    ensures d.markerAt.Some? ==> 0 < d.markerAt.value < |xml| && xml[d.markerAt.value] == '<' && '<' !in xml[..d.markerAt.value]
    ensures d.controlAtStart <==> xml != [] && IsIsoControl(xml[0]) && xml[0] !in {'\n', '\r', '\t'}
  {
    if xml == [] then Diagnosis(0, None, false, None, false)
    else
      var notMarkup := !StartsWith(Trim(xml), "<");
      var xmlStart := IndexOf(xml, '<');
      assert notMarkup ==> xmlStart != 0 by {
        if xmlStart == 0 {
          assert Trim(xml)[0] == '<' by { TrimKeepsMarker(xml); }
        }
      }
      var c := xml[0];
      Diagnosis(|xml|, Some(c), notMarkup,
                if notMarkup && xmlStart > 0 then Some(xmlStart) else None,
                IsIsoControl(c) && c != '\n' && c != '\r' && c != '\t')
  }

  /** A payload opening with '<' still opens with '<' once trimmed. */
  lemma TrimKeepsMarker(s: string)
    requires s != [] && s[0] == '<'
    ensures Trim(s) != [] && Trim(s)[0] == '<'
  {
    assert LeadingWs(s) == 0;
  }

  /** The first n chars of s, or all of s when it is shorter. */
  function Clip(s: string, n: nat): string {
    if |s| > n then s[..n] else s
  }

  /** The opening lines of the diagnosis: the parser's message and the exception's class name. */
  function DiagnosisHead(errorMessage: string, exceptionType: string): string {
    "DIAGNÓSTICO XML ERROR:\n" + "- Error: " + errorMessage + "\n" + "- Tipo Exception: " + exceptionType + "\n"
  }

  /** The payload as the last line shows it: its first 100 chars, with "..." when it is longer. */
  function ContentExcerpt(xml: string): (r: string)
    ensures |xml| <= 100 ==> r == xml
    ensures |xml| > 100 ==> r == xml[..100] + "..."
  {
    if |xml| > 100 then xml[..100] + "..." else xml
  }

  /** The lines between the head and the excerpt: length, first char, and what is wrong with the start. */
  function DiagnosisFindings(xml: string): string {
    var d := Diagnose(xml);
    "- Longitud contenido: " + NatToString(d.length) + " caracteres\n"
    + (match d.firstChar
       case None => ""
       case Some(c) =>
         "- Primer carácter: '" + [c] + "' (ASCII: " + NatToString(c as int) + ")\n"
         + "- Primeros 20 caracteres: '" + Clip(xml, 20) + "'\n"
         + (if !d.notMarkup then ""
            else "- PROBLEMA: El contenido no empieza con '<' (no es XML válido)\n"
                 + (match d.markerAt
                    case Some(at) =>
                      "- El primer '<' está en posición: " + NatToString(at) + "\n"
                      + "- Contenido antes de XML: '" + xml[..at] + "'\n"
                    case None => "- NO SE ENCONTRÓ '<' en todo el contenido\n"))
         + (if d.controlAtStart then "- PROBLEMA: Carácter de control invisible al inicio\n" else ""))
    + "- Contenido completo (100 primeros chars): "
  }

  /**
   * The diagnosis text analyzeXmlError builds, from the parser's message and
   * exception class name: it opens with those two, then the payload's
   * findings, and ends with an excerpt of the payload.
   */
  function AnalyzeXmlError(xml: string, errorMessage: string, exceptionType: string): (r: string)
    ensures StartsWith(r, DiagnosisHead(errorMessage, exceptionType))
    ensures |r| >= |ContentExcerpt(xml)| && r[|r| - |ContentExcerpt(xml)|..] == ContentExcerpt(xml)
  {
    var head := DiagnosisHead(errorMessage, exceptionType);
    var excerpt := ContentExcerpt(xml);
    var r := head + DiagnosisFindings(xml) + excerpt;
    assert r[..|head|] == head;
    assert r[|r| - |excerpt|..] == excerpt;
    r
  }
}

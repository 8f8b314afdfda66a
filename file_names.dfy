/** The display names the components derive from an uploaded file's name with
    chains of `String.prototype.replace`:
      `/\.pdf$/i` and `/\.(xlsx|xls|csv)$/i` drop one trailing extension, in
      any letter case;
      `/[-_]/g` turns every hyphen and underscore into a space;
      `/\b\w/g` upper-cases the first character of every word. */
module FileNames {
  import opened Strings

  /** The regex flag `i` on an extension written in lower case. */
  predicate EndsWithIgnoringCase(name: string, ext: string)
  {
    EndsWith(ToLower(name), ext)
  }

  predicate IsSeparator(c: char) { c == '-' || c == '_' }

  /** `name.replace(/\.pdf$/i, '')`. */
  function StripPdfExtension(name: string): (r: string)
    ensures |r| <= |name| && r == name[..|r|]
    ensures |r| == if EndsWithIgnoringCase(name, ".pdf") then |name| - 4 else |name|
  {
    if EndsWithIgnoringCase(name, ".pdf") then name[..|name| - 4] else name
  }

  /** `name.replace(/\.(xlsx|xls|csv)$/i, '')`: the leftmost match wins, so a
      name ending in `.xlsx` loses all five characters. */
  function StripSpreadsheetExtension(name: string): (r: string)
    ensures |r| <= |name| && r == name[..|r|]
    ensures |r| < |name| <==>
      EndsWithIgnoringCase(name, ".xlsx") || EndsWithIgnoringCase(name, ".xls") || EndsWithIgnoringCase(name, ".csv")
    ensures |r| < |name| ==> ToLower(name)[|r|..] in [".xlsx", ".xls", ".csv"]
    ensures EndsWithIgnoringCase(name, ".xlsx") ==> |r| == |name| - 5
    ensures !EndsWithIgnoringCase(name, ".xlsx") && (EndsWithIgnoringCase(name, ".xls") || EndsWithIgnoringCase(name, ".csv")) ==>
      |r| == |name| - 4
  {
    if EndsWithIgnoringCase(name, ".xlsx") then name[..|name| - 5]
    else if EndsWithIgnoringCase(name, ".xls") || EndsWithIgnoringCase(name, ".csv") then name[..|name| - 4]
    else name
  }

  /** `s.replace(/[-_]/g, ' ')`. */
  function SeparatorsToSpaces(s: string): (r: string)
    ensures |r| == |s|
    ensures forall i :: 0 <= i < |s| ==> r[i] == if IsSeparator(s[i]) then ' ' else s[i]
    ensures forall i :: 0 <= i < |r| ==> !IsSeparator(r[i])
  {
    if s == [] then [] else [if IsSeparator(s[0]) then ' ' else s[0]] + SeparatorsToSpaces(s[1..])
  }

  /** Position `i` of `s` matches `\b\w`: a word character with no word
      character just before it. */
  predicate WordStart(s: string, i: nat)
    requires i < |s|
  {
    IsWordChar(s[i]) && (i == 0 || !IsWordChar(s[i - 1]))
  }

  /** Position `i` of `s` starts a word, when the character before `s` was a
      word character iff `afterWord`. */
  predicate StartsWordAfter(s: string, i: nat, afterWord: bool)
    requires i < |s|
  {
    IsWordChar(s[i]) && !(if i == 0 then afterWord else IsWordChar(s[i - 1]))
  }

  /** The title-casing pass over `s`, when the character before `s` was a word
      character iff `afterWord`. */
  function TitleCaseFrom(s: string, afterWord: bool): string
  {
    if s == [] then []
    else
      [if IsWordChar(s[0]) && !afterWord then UpperChar(s[0]) else s[0]]
      + TitleCaseFrom(s[1..], IsWordChar(s[0]))
  }

  lemma {:induction false} TitleCaseFromAt(s: string, afterWord: bool)
    ensures |TitleCaseFrom(s, afterWord)| == |s|
    ensures forall i :: 0 <= i < |s| ==>
      TitleCaseFrom(s, afterWord)[i] == if StartsWordAfter(s, i, afterWord) then UpperChar(s[i]) else s[i]
  {
    if s != [] {
      var rest := s[1..];
      TitleCaseFromAt(rest, IsWordChar(s[0]));
      var r := TitleCaseFrom(s, afterWord);
      forall i | 0 < i < |s|
        ensures r[i] == if StartsWordAfter(s, i, afterWord) then UpperChar(s[i]) else s[i]
      {
        assert r[i] == TitleCaseFrom(rest, IsWordChar(s[0]))[i - 1];
        assert rest[i - 1] == s[i];
        assert StartsWordAfter(rest, i - 1, IsWordChar(s[0])) == StartsWordAfter(s, i, afterWord);
      }
    }
  }

  /** `s.replace(/\b\w/g, l => l.toUpperCase())`. */
  function TitleCase(s: string): (r: string)
    ensures |r| == |s|
    ensures forall i :: 0 <= i < |s| ==> r[i] == if WordStart(s, i) then UpperChar(s[i]) else s[i]
  {
    TitleCaseFromAt(s, false);
    assert forall i :: 0 <= i < |s| ==> StartsWordAfter(s, i, false) == WordStart(s, i);
    TitleCaseFrom(s, false)
  }

  /** Upper-casing keeps word characters word characters and others not. */
  lemma UpperCharKeepsClass(c: char)
    ensures IsWordChar(UpperChar(c)) == IsWordChar(c)
    ensures UpperChar(UpperChar(c)) == UpperChar(c)
    ensures !IsAsciiLower(UpperChar(c))
    ensures UpperChar(c) == c || IsAsciiLower(c)
  {
  }

  /** The title-casing pass leaves words where they were: the same positions
      start words afterwards, each of them now not a lower-case letter, and
      a second pass changes nothing. */
  lemma TitleCaseWords(s: string)
    ensures forall i :: 0 <= i < |s| ==> (WordStart(TitleCase(s), i) <==> WordStart(s, i))
    ensures forall i :: 0 <= i < |s| && WordStart(TitleCase(s), i) ==> !IsAsciiLower(TitleCase(s)[i])
    ensures TitleCase(TitleCase(s)) == TitleCase(s)
  {
    var t := TitleCase(s);
    forall i | 0 <= i < |s| ensures WordStart(t, i) <==> WordStart(s, i) {
      UpperCharKeepsClass(s[i]);
      if i > 0 {
        UpperCharKeepsClass(s[i - 1]);
      }
    }
    forall i | 0 <= i < |s| ensures TitleCase(t)[i] == t[i] {
      UpperCharKeepsClass(s[i]);
    }
    forall i | 0 <= i < |s| && WordStart(t, i) ensures !IsAsciiLower(t[i]) {
      UpperCharKeepsClass(s[i]);
    }
  }

  /** Title-casing changes only lower-case letters, so it adds no hyphen or
      underscore. */
  lemma TitleCaseKeepsSeparators(s: string)
    ensures forall i :: 0 <= i < |s| ==> (IsSeparator(TitleCase(s)[i]) <==> IsSeparator(s[i]))
  {
    forall i | 0 <= i < |s| ensures IsSeparator(TitleCase(s)[i]) <==> IsSeparator(s[i]) {
      UpperCharKeepsClass(s[i]);
    }
  }

  /** The contract name and the contract summary line:
      `name.replace(/\.pdf$/i, '').replace(/[-_]/g, ' ')`. Every character
      but an optional trailing `.pdf` is kept, hyphens and underscores
      becoming spaces; no letter changes case. */
  function CleanPdfName(name: string): (r: string)
    ensures |r| == if EndsWithIgnoringCase(name, ".pdf") then |name| - 4 else |name|
    ensures forall i :: 0 <= i < |r| ==> r[i] == if IsSeparator(name[i]) then ' ' else name[i]
    ensures forall i :: 0 <= i < |r| ==> !IsSeparator(r[i])
  {
    SeparatorsToSpaces(StripPdfExtension(name))
  }

  /** The forecast summary line:
      `name.replace(/\.(xlsx|xls|csv)$/i, '').replace(/[-_]/g, ' ')`. */
  function CleanSpreadsheetName(name: string): (r: string)
    ensures |r| == if EndsWithIgnoringCase(name, ".xlsx") then |name| - 5
      else if EndsWithIgnoringCase(name, ".xls") || EndsWithIgnoringCase(name, ".csv") then |name| - 4
      else |name|
    ensures |r| < |name| <==>
      EndsWithIgnoringCase(name, ".xlsx") || EndsWithIgnoringCase(name, ".xls") || EndsWithIgnoringCase(name, ".csv")
    ensures forall i :: 0 <= i < |r| ==> r[i] == if IsSeparator(name[i]) then ' ' else name[i]
    ensures forall i :: 0 <= i < |r| ==> !IsSeparator(r[i])
  {
    SeparatorsToSpaces(StripSpreadsheetExtension(name))
  }

  /** The forecast name shown in the upload list: the summary line with every
      word's first character upper-cased. */
  function ForecastName(name: string): (r: string)
    ensures |r| == |CleanSpreadsheetName(name)| && |r| <= |name|
    ensures forall i :: 0 <= i < |r| ==> !IsSeparator(r[i])
    ensures forall i :: 0 <= i < |r| && WordStart(r, i) ==> !IsAsciiLower(r[i])
    ensures forall i :: 0 <= i < |r| && !WordStart(r, i) ==> r[i] == CleanSpreadsheetName(name)[i]
  {
    var clean := CleanSpreadsheetName(name);
    TitleCaseWords(clean);
    TitleCaseKeepsSeparators(clean);
    TitleCase(clean)
  }
}

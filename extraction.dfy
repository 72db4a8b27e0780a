/**
 * Text extraction from a successful `generateContent` reply: the parts of the
 * first candidate's content, their `text` fields joined in order, and the
 * result trimmed of surrounding whitespace.
 */
module Extraction {
  import opened Wrappers

  /** One element of `content.parts`; only its `text` field is read. */
  datatype Part = Part(text: Option<string>)

  /** The `content` of a candidate. */
  datatype Content = Content(parts: Option<seq<Part>>)

  /** One element of `candidates`; an element may itself be `null`. */
  datatype Candidate = Candidate(content: Option<Content>)

  /** The parsed JSON body of a reply whose HTTP status was ok. */
  datatype Reply = Reply(candidates: Option<seq<Option<Candidate>>>)

  /** The set of characters that `String.prototype.trim` removes, left abstract. */
  type Whitespace = char -> bool

  /** `p.text || ""`: a missing text counts as the empty string. */
  function PartText(p: Part): (t: string)
    ensures p.text.None? ==> t == []
    ensures p.text.Some? ==> t == p.text.value
  {
    p.text.GetOr("")
  }

  /**
   * `data?.candidates?.[0]?.content?.parts || []`: every missing link in the
   * chain gives no parts; a present list is used as it is, even when empty.
   */
  function PartsOf(data: Option<Reply>): (parts: seq<Part>)
    ensures parts != [] ==>
      && data.Some? && data.value.candidates.Some?
      && |data.value.candidates.value| > 0
      && data.value.candidates.value[0].Some?
      && data.value.candidates.value[0].value.content.Some?
      && data.value.candidates.value[0].value.content.value.parts == Some(parts)
    ensures
      && data.Some? && data.value.candidates.Some?
      && |data.value.candidates.value| > 0
      && data.value.candidates.value[0].Some?
      && data.value.candidates.value[0].value.content.Some?
      && data.value.candidates.value[0].value.content.value.parts.Some?
      ==> parts == data.value.candidates.value[0].value.content.value.parts.value
  {
    match data
    case None => []
    case Some(reply) =>
      match reply.candidates
      case None => []
      case Some(candidates) =>
        if candidates == [] then []
        else
          match candidates[0]
          case None => []
          case Some(candidate) =>
            match candidate.content
            case None => []
            case Some(content) => content.parts.GetOr([])
  }

  /** `parts.map(p => p.text || "").join("")`. */
  function Concat(parts: seq<Part>): (s: string)
    ensures parts == [] ==> s == []
  {
    if parts == [] then [] else PartText(parts[0]) + Concat(parts[1..])
  }

  /** The joined text is empty exactly when every part's text is. */
  lemma {:induction false} ConcatEmpty(parts: seq<Part>)
    ensures Concat(parts) == [] <==> forall i :: 0 <= i < |parts| ==> PartText(parts[i]) == []
  {
    if parts != [] {
      ConcatEmpty(parts[1..]);
      assert forall i :: 1 <= i < |parts| ==> parts[i] == parts[1..][i - 1];
    }
  }

  /** Every character of the joined text comes from some part's text. */
  lemma {:induction false} ConcatLocate(parts: seq<Part>, c: nat) returns (i: nat, j: nat)
    requires c < |Concat(parts)|
    ensures i < |parts| && j < |PartText(parts[i])| && Concat(parts)[c] == PartText(parts[i])[j]
    decreases |parts|
  {
    var head := PartText(parts[0]);
    if c < |head| {
      i, j := 0, c;
    } else {
      var i', j' := ConcatLocate(parts[1..], c - |head|);
      i, j := i' + 1, j';
    }
  }

  /** Every character of every part's text appears in the joined text. */
  lemma {:induction false} ConcatPlace(parts: seq<Part>, i: nat, j: nat) returns (c: nat)
    requires i < |parts| && j < |PartText(parts[i])|
    ensures c < |Concat(parts)| && Concat(parts)[c] == PartText(parts[i])[j]
    decreases i
  {
    if i == 0 {
      c := j;
    } else {
      var c' := ConcatPlace(parts[1..], i - 1, j);
      c := |PartText(parts[0])| + c';
    }
  }

  /** Joining is a homomorphism: the text of two runs of parts is the text of each, in order. */
  lemma {:induction false} ConcatAppend(a: seq<Part>, b: seq<Part>)
    ensures Concat(a + b) == Concat(a) + Concat(b)
  {
    if a == [] {
      assert a + b == b;
    } else {
      assert (a + b)[1..] == a[1..] + b;
      ConcatAppend(a[1..], b);
    }
  }

  /** Drops the leading whitespace of `s`. */
  function TrimStart(ws: Whitespace, s: string): (r: string)
    ensures |r| <= |s|
    ensures r != [] ==> !ws(r[0])
    decreases |s|
  {
    if s != [] && ws(s[0]) then TrimStart(ws, s[1..]) else s
  }

  /** What TrimStart drops is a run of whitespace at the front, and only that. */
  lemma {:induction false} TrimStartCuts(ws: Whitespace, s: string)
    ensures var r := TrimStart(ws, s);
      && r == s[|s| - |r|..]
      && forall i :: 0 <= i < |s| - |r| ==> ws(s[i])
    decreases |s|
  {
    if s != [] && ws(s[0]) {
      TrimStartCuts(ws, s[1..]);
    }
  }

  /** Drops the trailing whitespace of `s`. */
  function TrimEnd(ws: Whitespace, s: string): (r: string)
    ensures |r| <= |s|
    ensures r != [] ==> !ws(r[|r| - 1])
    decreases |s|
  {
    if s != [] && ws(s[|s| - 1]) then TrimEnd(ws, s[..|s| - 1]) else s
  }

  /** What TrimEnd drops is a run of whitespace at the back, and only that. */
  lemma {:induction false} TrimEndCuts(ws: Whitespace, s: string)
    ensures var r := TrimEnd(ws, s);
      && r == s[..|r|]
      && forall i :: |r| <= i < |s| ==> ws(s[i])
    decreases |s|
  {
    if s != [] && ws(s[|s| - 1]) {
      TrimEndCuts(ws, s[..|s| - 1]);
    }
  }

  /** `s.trim()`: leading and trailing whitespace removed; the result neither starts nor ends with whitespace. */
  function Trim(ws: Whitespace, s: string): (r: string)
    ensures |r| <= |s|
    ensures r != [] ==> !ws(r[0]) && !ws(r[|r| - 1])
  {
    var t := TrimStart(ws, s);
    TrimEndCuts(ws, t);
    TrimEnd(ws, t)
  }

  /**
   * Trim keeps one contiguous piece of `s`, starting at the first
   * non-whitespace character, and everything it cuts off is whitespace.
   */
  lemma TrimCuts(ws: Whitespace, s: string)
    ensures var r := Trim(ws, s); var k := |s| - |TrimStart(ws, s)|;
      && k + |r| <= |s| && r == s[k..k + |r|]
      && (forall i :: 0 <= i < k ==> ws(s[i]))
      && (forall i :: k + |r| <= i < |s| ==> ws(s[i]))
  {
    var t := TrimStart(ws, s);
    var r := Trim(ws, s);
    var k := |s| - |t|;
    TrimStartCuts(ws, s);
    TrimEndCuts(ws, t);
    assert r == s[k..k + |r|];
    forall i | k + |r| <= i < |s|
      ensures ws(s[i])
    {
      assert s[i] == t[i - k];
    }
  }

  /**
   * Trim is characterised by its cut points alone: any piece of `s` whose
   * surroundings are whitespace and whose ends are not is the trimmed string.
   */
  lemma TrimUnique(ws: Whitespace, s: string, a: nat, b: nat)
    requires a <= b <= |s|
    requires forall i :: 0 <= i < a ==> ws(s[i])
    requires forall i :: b <= i < |s| ==> ws(s[i])
    requires a < b ==> !ws(s[a]) && !ws(s[b - 1])
    ensures Trim(ws, s) == s[a..b]
  {
    TrimCuts(ws, s);
  }

  /** Trimming twice is trimming once. */
  lemma TrimIdempotent(ws: Whitespace, s: string)
    ensures Trim(ws, Trim(ws, s)) == Trim(ws, s)
  {
    var r := Trim(ws, s);
    TrimUnique(ws, r, 0, |r|);
    assert r[0..|r|] == r;
  }

  /** Trimming gives the empty string exactly when every character is whitespace. */
  lemma TrimEmptyIff(ws: Whitespace, s: string)
    ensures Trim(ws, s) == [] <==> forall i :: 0 <= i < |s| ==> ws(s[i])
  {
    TrimCuts(ws, s);
    if forall i :: 0 <= i < |s| ==> ws(s[i]) {
      TrimUnique(ws, s, 0, 0);
    }
  }

  /**
   * The text of a reply (lines 85-86 of the handler): the first candidate's
   * parts joined and trimmed. It never starts or ends with whitespace.
   */
  function ExtractText(ws: Whitespace, data: Option<Reply>): (text: string)
    ensures text != [] ==> !ws(text[0]) && !ws(text[|text| - 1])
  {
    Trim(ws, Concat(PartsOf(data)))
  }

  /** A reply without parts (any missing link, or an empty list) has no text. */
  lemma ExtractTextNoParts(ws: Whitespace, data: Option<Reply>)
    requires PartsOf(data) == []
    ensures ExtractText(ws, data) == []
  {
  }

  /** The extracted text is already trimmed: trimming it again changes nothing. */
  lemma ExtractTextTrimmed(ws: Whitespace, data: Option<Reply>)
    ensures Trim(ws, ExtractText(ws, data)) == ExtractText(ws, data)
  {
    TrimIdempotent(ws, Concat(PartsOf(data)));
  }

  /**
   * A reply has text exactly when some part of its first candidate holds a
   * non-whitespace character.
   */
  lemma ExtractTextSource(ws: Whitespace, data: Option<Reply>)
    ensures ExtractText(ws, data) != [] <==>
      exists i, j :: 0 <= i < |PartsOf(data)| && 0 <= j < |PartText(PartsOf(data)[i])| && !ws(PartText(PartsOf(data)[i])[j])
  {
    var parts := PartsOf(data);
    var joined := Concat(parts);
    TrimEmptyIff(ws, joined);
    if ExtractText(ws, data) != [] {
      var c :| 0 <= c < |joined| && !ws(joined[c]);
      var i, j := ConcatLocate(parts, c);
      assert !ws(PartText(parts[i])[j]);
    }
    if exists i, j :: 0 <= i < |parts| && 0 <= j < |PartText(parts[i])| && !ws(PartText(parts[i])[j]) {
      var i, j :| 0 <= i < |parts| && 0 <= j < |PartText(parts[i])| && !ws(PartText(parts[i])[j]);
      var c := ConcatPlace(parts, i, j);
      assert !ws(joined[c]);
    }
  }
}

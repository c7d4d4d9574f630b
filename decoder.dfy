/** Recovering a structured record from the vision model's reply text.

    Three stages, each tried only when the one before fails:
    1. trim the text, strip a leading "```json" fence and a trailing "```"
       fence, and parse what is left;
    2. if that parse reports an error, parse the greedy span from the first
       `{` to the last `}` of the untrimmed reply;
    3. if the last parse still reports an error, or its result is not an
       array, use a fixed record whose `full_text` is the reply verbatim.

    `json_decode($text, true)` is a parameter `parse`: `None` stands for a
    call after which `json_last_error()` is not `JSON_ERROR_NONE`. */
module ResponseDecoder {
  import opened PhpValues
  import opened PhpText

  const JsonFence: string := "```json"
  const Fence: string := "```"

  /** `preg_replace('/^```json\s*|\s*```$/', '', $t)` for a trimmed `$t`:
      the first alternative can only match at the start, the second only at
      the end (a trimmed text has no final newline for `$` to stop before). */
  function StripFences(t: string): (r: string)
    ensures |r| <= |t|
    ensures !StartsWith(t, JsonFence) && !EndsWith(t, Fence) ==> r == t
  {
    var rest := if StartsWith(t, JsonFence) then DropSpaces(t[|JsonFence|..]) else t;
    if EndsWith(rest, Fence) then DropTrailingSpaces(rest[..|rest| - |Fence|]) else rest
  }

  /** The text the first parse is given. */
  function Cleaned(content: string): (r: string)
    ensures |r| <= |content|
    ensures Trim(content) == content && !StartsWith(content, JsonFence) && !EndsWith(content, Fence) ==> r == content
  {
    StripFences(Trim(content))
  }

  /** The position of the first `c` in `s` from `i` on. */
  function FirstFrom(s: string, c: char, i: nat): (r: Option<nat>)
    requires i <= |s|
    ensures r.Some? ==> i <= r.value < |s| && s[r.value] == c &&
                        forall k :: i <= k < r.value ==> s[k] != c
    ensures r.None? ==> forall k :: i <= k < |s| ==> s[k] != c
    decreases |s| - i
  {
    if i == |s| then None
    else if s[i] == c then Some(i)
    else FirstFrom(s, c, i + 1)
  }

  /** The position of the last `c` in `s[..n]`. */
  function LastBefore(s: string, c: char, n: nat): (r: Option<nat>)
    requires n <= |s|
    ensures r.Some? ==> r.value < n && s[r.value] == c &&
                        forall k :: r.value < k < n ==> s[k] != c
    ensures r.None? ==> forall k :: 0 <= k < n ==> s[k] != c
  {
    if n == 0 then None
    else if s[n - 1] == c then Some(n - 1)
    else LastBefore(s, c, n - 1)
  }

  /** `s[i]` is the first `{` of `s`, `s[j]` its last `}`, and `i < j`. */
  predicate SpanAt(s: string, i: int, j: int) {
    0 <= i < j < |s| && s[i] == '{' && s[j] == '}' &&
    (forall k :: 0 <= k < i ==> s[k] != '{') && (forall k :: j < k < |s| ==> s[k] != '}')
  }

  /** `preg_match('/\{.*\}/s', $content, $m)`: the leftmost `{` and, the
      dot matching newlines too, the greediest `}` after it, which is the
      last `}` of the text. No match when no `}` follows the first `{`. */
  function BraceSpan(s: string): (r: Option<string>)
    ensures r.Some? ==> 2 <= |r.value| <= |s| && r.value[0] == '{' && r.value[|r.value| - 1] == '}'
    ensures r.Some? ==> exists i, j :: SpanAt(s, i, j) && r.value == s[i..j + 1]
  {
    match BracePair(s)
    case Some((i, j)) => Some(s[i..j + 1])
    case None => None
  }

  /** The positions of the first `{` and of the last `}`, when the `}` comes later. */
  function BracePair(s: string): (r: Option<(nat, nat)>)
    ensures r.Some? ==> r.value.0 < r.value.1 < |s| && s[r.value.0] == '{' && s[r.value.1] == '}'
    ensures r.Some? ==> SpanAt(s, r.value.0, r.value.1)
  {
    var first, last := FirstFrom(s, '{', 0), LastBefore(s, '}', |s|);
    if first.Some? && last.Some? && first.value < last.value
    then Some((first.value, last.value))
    else None
  }

  /** The span is there exactly when some `}` follows some `{`, and it runs
      from the first `{` to the last `}`. */
  lemma BraceSpanMeaning(s: string)
    ensures BraceSpan(s).None? <==> forall i, j :: 0 <= i < j < |s| && s[i] == '{' ==> s[j] != '}'
    ensures BraceSpan(s).Some? ==> exists i, j :: SpanAt(s, i, j) && BraceSpan(s).value == s[i..j + 1]
  {
    var first, last := FirstFrom(s, '{', 0), LastBefore(s, '}', |s|);
    if first.Some? && last.Some? && first.value < last.value {
      assert SpanAt(s, first.value, last.value);
    }
  }

  /** The record used when nothing usable could be parsed: the reply
      verbatim as `full_text`, no items, no lines, and no `totals`. */
  function Fallback(content: string): (r: Value)
    ensures r.Arr?
    ensures Field(r, "full_text") == Some(Str(content))
    ensures Field(r, "items") == Some(Arr([])) && Field(r, "lines") == Some(Arr([]))
    ensures Field(r, "totals") == None
  {
    var e := [
      Entry(StrKey("store_name"), Null),
      Entry(StrKey("date"), Null),
      Entry(StrKey("total_amount"), Null),
      Entry(StrKey("currency"), Null),
      Entry(StrKey("items"), Arr([])),
      Entry(StrKey("lines"), Arr([])),
      Entry(StrKey("full_text"), Str(content))
    ];
    LookupFirst(e, StrKey("full_text"), 6);
    LookupFirst(e, StrKey("items"), 4);
    LookupFirst(e, StrKey("lines"), 5);
    LookupAbsent(e, StrKey("totals"));
    Arr(e)
  }

  /** A parse result that is usable as a record: it parsed, and to an array. */
  function AsRecord(x: Option<Value>): (r: Option<Value>)
    ensures r.Some? <==> x.Some? && x.value.Arr?
    ensures r.Some? ==> r == x
  {
    if x.Some? && x.value.Arr? then x else None
  }

  /** The stages as a first-success pipeline. The span is tried only after a
      parse error: a reply that parses to a scalar is not searched for braces. */
  function Recovered(content: string, parse: string -> Option<Value>): (r: Option<Value>)
    ensures r.Some? ==> r.value.Arr?
  {
    match parse(Cleaned(content))
    case Some(v) => AsRecord(Some(v))
    case None =>
      match BraceSpan(content)
      case Some(span) => AsRecord(parse(span))
      case None => None
  }

  /** The decoded record: never a failure, always an array. */
  function Decode(content: string, parse: string -> Option<Value>): (r: Value)
    ensures r.Arr?
  {
    match Recovered(content, parse)
    case Some(v) => v
    case None => Fallback(content)
  }

  /** The decoding steps as the controller runs them, reassigning `decoded`
      and consulting the error flag the last parse left behind. */
  method DecodeReply(content: string, parse: string -> Option<Value>) returns (decoded: Value)
    ensures decoded == Decode(content, parse)
    ensures decoded.Arr?
  {
    var cleanedContent := Cleaned(content);
    var result := parse(cleanedContent);
    decoded := result.GetOr(Null);
    var failed := result.None?;
    if failed {
      var matches := BraceSpan(content);
      if matches.Some? {
        result := parse(matches.value);
        decoded := result.GetOr(Null);
        failed := result.None?;
      }
    }
    if failed || !decoded.Arr? {
      assert Recovered(content, parse).None?;
      decoded := Fallback(content);
    } else {
      assert Recovered(content, parse) == Some(decoded);
    }
  }

  /** A fenced reply whose body parses to an array yields exactly that array. */
  lemma FirstStageWins(content: string, parse: string -> Option<Value>, v: Value)
    requires parse(Cleaned(content)) == Some(v) && v.Arr?
    ensures Decode(content, parse) == v
  {
  }

  /** A reply that parses without error to something other than an array
      falls back at once; the brace span is not tried. */
  lemma ScalarReplyFallsBack(content: string, parse: string -> Option<Value>)
    requires parse(Cleaned(content)).Some? && !parse(Cleaned(content)).value.Arr?
    ensures Decode(content, parse) == Fallback(content)
  {
  }

  /** After a parse error, the span from the first `{` to the last `}` is parsed. */
  lemma SpanStage(content: string, parse: string -> Option<Value>, span: string, v: Value)
    requires parse(Cleaned(content)).None?
    requires BraceSpan(content) == Some(span) && parse(span) == Some(v) && v.Arr?
    ensures Decode(content, parse) == v
  {
  }

  /** When no stage yields an array the record keeps the reply as its text and
      has no items and no lines. */
  lemma UnusableReplyKeepsText(content: string, parse: string -> Option<Value>)
    requires Recovered(content, parse).None?
    ensures Field(Decode(content, parse), "full_text") == Some(Str(content))
    ensures Field(Decode(content, parse), "items") == Some(Arr([]))
    ensures Field(Decode(content, parse), "lines") == Some(Arr([]))
    ensures Field(Decode(content, parse), "totals") == None
  {
  }

  /** The reply a model gives when it wraps its JSON in a markdown fence. */
  function Fenced(body: string): string {
    JsonFence + "\n" + body + "\n" + Fence
  }

  /** No brace of either kind occurs in `s`. */
  predicate BraceFree(s: string) {
    forall k :: 0 <= k < |s| ==> s[k] != '{' && s[k] != '}'
  }

  function Shift(o: Option<nat>, n: nat): Option<nat> {
    match o
    case Some(x) => Some(x + n)
    case None => None
  }

  lemma FirstFromIs(s: string, c: char, x: nat)
    requires x < |s| && s[x] == c && forall k :: 0 <= k < x ==> s[k] != c
    ensures FirstFrom(s, c, 0) == Some(x)
  {
  }

  lemma LastBeforeIs(s: string, c: char, x: nat)
    requires x < |s| && s[x] == c && forall k :: x < k < |s| ==> s[k] != c
    ensures LastBefore(s, c, |s|) == Some(x)
  {
  }

  lemma {:induction false} FirstBraceFramed(p: string, b: string, q: string)
    requires BraceFree(p) && BraceFree(q)
    ensures FirstFrom(p + b + q, '{', 0) == Shift(FirstFrom(b, '{', 0), |p|)
  {
    var s := p + b + q;
    var fb := FirstFrom(b, '{', 0);
    if fb.Some? {
      var x := |p| + fb.value;
      assert s[x] == b[fb.value];
      assert forall k :: 0 <= k < x ==> s[k] != '{' by {
        assert forall k :: 0 <= k < |p| ==> s[k] == p[k];
        assert forall k :: |p| <= k < x ==> s[k] == b[k - |p|];
      }
      FirstFromIs(s, '{', x);
    } else {
      assert forall k :: 0 <= k < |s| ==> s[k] != '{' by {
        assert forall k :: 0 <= k < |p| ==> s[k] == p[k];
        assert forall k :: |p| <= k < |p| + |b| ==> s[k] == b[k - |p|];
        assert forall k :: |p| + |b| <= k < |s| ==> s[k] == q[k - |p| - |b|];
      }
    }
  }

  lemma {:induction false} LastBraceFramed(p: string, b: string, q: string)
    requires BraceFree(p) && BraceFree(q)
    ensures LastBefore(p + b + q, '}', |p + b + q|) == Shift(LastBefore(b, '}', |b|), |p|)
  {
    var s := p + b + q;
    var lb := LastBefore(b, '}', |b|);
    if lb.Some? {
      var x := |p| + lb.value;
      assert s[x] == b[lb.value];
      assert forall k :: x < k < |s| ==> s[k] != '}' by {
        assert forall k :: x < k < |p| + |b| ==> s[k] == b[k - |p|];
        assert forall k :: |p| + |b| <= k < |s| ==> s[k] == q[k - |p| - |b|];
      }
      LastBeforeIs(s, '}', x);
    } else {
      assert forall k :: 0 <= k < |s| ==> s[k] != '}' by {
        assert forall k :: 0 <= k < |p| ==> s[k] == p[k];
        assert forall k :: |p| <= k < |p| + |b| ==> s[k] == b[k - |p|];
        assert forall k :: |p| + |b| <= k < |s| ==> s[k] == q[k - |p| - |b|];
      }
    }
  }

  /** Text without braces around a reply shifts its brace positions. */
  lemma BracePairFramed(p: string, b: string, q: string)
    requires BraceFree(p) && BraceFree(q)
    ensures BracePair(p + b + q) ==
              match BracePair(b)
              case Some((i, j)) => Some((|p| + i, |p| + j))
              case None => None
  {
    FirstBraceFramed(p, b, q);
    LastBraceFramed(p, b, q);
  }

  /** Text without braces around a reply does not change its brace span. */
  lemma BraceSpanFramed(p: string, b: string, q: string)
    requires BraceFree(p) && BraceFree(q)
    ensures BraceSpan(p + b + q) == BraceSpan(b)
  {
    BracePairFramed(p, b, q);
    if BracePair(b).Some? {
      FramedSlice(p, b, q, BracePair(b).value.0, BracePair(b).value.1 + 1);
    }
  }

  lemma FramedSlice(p: string, b: string, q: string, i: nat, j: nat)
    requires i <= j <= |b|
    ensures (p + b + q)[|p| + i..|p| + j] == b[i..j]
  {
    assert (p + b + q)[|p|..|p| + |b|] == b;
  }

  /** Stripping both fences leaves what lies between them, less the spaces
      next to each fence. */
  lemma StripBothFences(t: string, inner: string)
    requires StartsWith(t, JsonFence) && DropSpaces(t[|JsonFence|..]) == inner + Fence
    ensures StripFences(t) == DropTrailingSpaces(inner)
  {
    SuffixOfJoined(inner, Fence);
  }

  /** A fenced reply survives `trim` and opens with the JSON fence. */
  lemma FencedShape(body: string)
    ensures Cleaned(Fenced(body)) == StripFences(Fenced(body))
    ensures StartsWith(Fenced(body), JsonFence)
    ensures Fenced(body)[|JsonFence|..] == ['\n'] + (body + ['\n'] + Fence)
  {
    var t := Fenced(body);
    assert t == JsonFence + (['\n'] + (body + ['\n'] + Fence));
    assert t[0] == '`' && t[|t| - 1] == '`';
    TrimKeeps(t);
    PrefixOfJoined(JsonFence, ['\n'] + (body + ['\n'] + Fence));
  }

  /** The spaces after the opening fence of an empty body run into the closing fence. */
  lemma OpeningSpacesEmpty()
    ensures DropSpaces(['\n'] + ([] + ['\n'] + Fence)) == [] + Fence
  {
    var x: string := [];
    assert ['\n'] + (x + ['\n'] + Fence) == ['\n', '\n'] + Fence;
    assert ['\n', '\n'] + Fence == ['\n'] + (['\n'] + Fence);
    DropSpacesSkips('\n', ['\n'] + Fence);
    DropSpacesSkips('\n', Fence);
    DropSpacesKeeps(Fence);
  }

  /** The newline after the opening fence is the only space dropped there. */
  lemma OpeningSpaces(body: string)
    requires body != [] && !IsRegexSpace(body[0])
    ensures DropSpaces(['\n'] + (body + ['\n'] + Fence)) == (body + ['\n']) + Fence
  {
    var tail := body + ['\n'] + Fence;
    DropSpacesSkips('\n', tail);
    DropSpacesKeeps(tail);
  }

  /** The first parse of a fenced reply is given exactly the body. */
  lemma {:induction false} FencedBodyIsCleaned(body: string)
    requires body == [] || (!IsRegexSpace(body[0]) && !IsRegexSpace(body[|body| - 1]))
    ensures Cleaned(Fenced(body)) == body
  {
    var t := Fenced(body);
    FencedShape(body);
    if body == [] {
      OpeningSpacesEmpty();
      StripBothFences(t, []);
    } else {
      OpeningSpaces(body);
      StripBothFences(t, body + ['\n']);
      DropTrailingSpacesSkips(body, '\n');
      DropTrailingSpacesKeeps(body);
    }
  }

  /** The fence lines hold no braces, so the span search sees the body's. */
  lemma FencedSpan(body: string)
    ensures BraceSpan(Fenced(body)) == BraceSpan(body)
  {
    var p, q := JsonFence + "\n", "\n" + Fence;
    assert BraceFree(p) && BraceFree(q);
    assert Fenced(body) == p + body + q;
    BraceSpanFramed(p, body, q);
  }

  /** A body wrapped in a markdown JSON fence goes through the stages as the
      bare body does. */
  lemma FencedReplyDecodesLikeBody(body: string, parse: string -> Option<Value>)
    requires body == [] || (!IsRegexSpace(body[0]) && !IsRegexSpace(body[|body| - 1]))
    requires Cleaned(body) == body
    ensures Recovered(Fenced(body), parse) == Recovered(body, parse)
  {
    FencedBodyIsCleaned(body);
    FencedSpan(body);
    SameStagesSameRecord(Fenced(body), body, parse);
  }

  /** Whenever the bare body yields a record, the fenced reply yields the same one. */
  lemma FencedRecordIsBodyRecord(body: string, parse: string -> Option<Value>)
    requires body == [] || (!IsRegexSpace(body[0]) && !IsRegexSpace(body[|body| - 1]))
    requires Cleaned(body) == body
    requires Recovered(body, parse).Some?
    ensures Decode(Fenced(body), parse) == Decode(body, parse)
  {
    FencedReplyDecodesLikeBody(body, parse);
    SameRecordSameDecode(Fenced(body), body, parse);
  }

  lemma SameRecordSameDecode(a: string, b: string, parse: string -> Option<Value>)
    requires Recovered(a, parse) == Recovered(b, parse) && Recovered(b, parse).Some?
    ensures Decode(a, parse) == Decode(b, parse)
  {
  }

  /** Two replies whose cleaned texts and brace spans agree recover the same record. */
  lemma SameStagesSameRecord(a: string, b: string, parse: string -> Option<Value>)
    requires Cleaned(a) == Cleaned(b) && BraceSpan(a) == BraceSpan(b)
    ensures Recovered(a, parse) == Recovered(b, parse)
  {
  }
}

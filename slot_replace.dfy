/**
 * The two kinds of `String.prototype.replace` call that the template processor makes, each with
 * a non-global regular expression, so only the leftmost match is replaced:
 *
 *   - a slot:  /<div class="X">.*?<\/div>/  ->  `<div class="X">${content}</div>`
 *   - a tag:   /<div class="X">/            ->  `<div class="X"${style}>`
 *
 * `.` does not match a line terminator and `.*?` is lazy, so a slot match runs from the
 * leftmost opening tag that has a `</div>` later on the same line, through the first such
 * `</div>`. The replacement text is inserted literally.
 */
module SlotReplace {

  import opened Wrappers

  const Close: string := "</div>"

  /** Characters that may appear in a class name: no quote, no `<`, no line terminator. */
  predicate ClassName(cls: string)
  {
    forall i :: 0 <= i < |cls| ==> cls[i] != '"' && cls[i] != '<' && !IsLineTerminator(cls[i])
  }

  predicate NoLineTerminator(s: string)
  {
    forall i :: 0 <= i < |s| ==> !IsLineTerminator(s[i])
  }

  predicate NoAngle(s: string)
  {
    forall i :: 0 <= i < |s| ==> s[i] != '<'
  }

  /** The opening tag `<div class="cls">` that every slot regex starts with. */
  function Open(cls: string): (tag: string)
  {
    "<div class=\"" + cls + "\">"
  }

  /** The characters that `.` in a JavaScript regular expression does not match. */
  predicate IsLineTerminator(c: char)
  {
    c == '\n' || c == '\r' || c == '\U{2028}' || c == '\U{2029}'
  }

  predicate OccursAt(s: string, pat: string, i: nat)
  {
    i + |pat| <= |s| && s[i..i + |pat|] == pat
  }

  /** `pat` occurs nowhere in `s`. */
  ghost predicate NoOcc(s: string, pat: string)
  {
    forall i: nat :: !OccursAt(s, pat, i)
  }

  /** No line terminator in s[from..to], so `.*?` can span it. */
  ghost predicate SameLine(s: string, from: nat, to: nat)
  {
    forall k :: from <= k < to ==> k < |s| && !IsLineTerminator(s[k])
  }

  /** s[p..q + |Close|] is a match of the slot regex whose opening tag is `open`. */
  ghost predicate SlotSpan(s: string, open: string, p: nat, q: nat)
  {
    OccursAt(s, open, p) && p + |open| <= q && OccursAt(s, Close, q) && SameLine(s, p + |open|, q)
  }

  ghost predicate NoSlot(s: string, open: string)
  {
    forall p: nat, q: nat :: !SlotSpan(s, open, p, q)
  }

  /** The match a non-global regex finds: leftmost start, then the lazy (shortest) end. */
  ghost predicate FirstSlot(s: string, open: string, p: nat, q: nat)
  {
    && SlotSpan(s, open, p, q)
    && (forall q': nat :: q' < q ==> !SlotSpan(s, open, p, q'))
    && (forall p': nat, q': nat :: p' < p ==> !SlotSpan(s, open, p', q'))
  }

  /** The leftmost occurrence of a plain pattern. */
  ghost predicate FirstOcc(s: string, pat: string, i: nat)
  {
    OccursAt(s, pat, i) && forall j: nat :: j < i ==> !OccursAt(s, pat, j)
  }

  /** The first `</div>` at or after `from` that the lazy `.*?` reaches before a line ends. */
  function FindClose(s: string, from: nat): (r: Option<nat>)
    requires from <= |s|
    ensures r.Some? ==> from <= r.value && OccursAt(s, Close, r.value) && SameLine(s, from, r.value)
    ensures r.Some? ==> forall q: nat :: from <= q < r.value ==> !OccursAt(s, Close, q)
    ensures r.None? ==> forall q: nat :: from <= q && SameLine(s, from, q) ==> !OccursAt(s, Close, q)
    decreases |s| - from
  {
    if OccursAt(s, Close, from) then Some(from)
    else if from == |s| || IsLineTerminator(s[from]) then None
    else FindClose(s, from + 1)
  }

  /** The leftmost slot match starting at or after `from`, as (start of tag, start of `</div>`). */
  function FindSlot(s: string, open: string, from: nat): (r: Option<(nat, nat)>)
    requires from <= |s|
    ensures r.Some? ==> from <= r.value.0 && SlotSpan(s, open, r.value.0, r.value.1)
    ensures r.Some? ==> forall q': nat :: q' < r.value.1 ==> !SlotSpan(s, open, r.value.0, q')
    ensures r.Some? ==> forall p': nat, q': nat :: from <= p' < r.value.0 ==> !SlotSpan(s, open, p', q')
    ensures r.None? ==> forall p': nat, q': nat :: from <= p' ==> !SlotSpan(s, open, p', q')
    decreases |s| - from
  {
    if from == |s| then
      None
    else if OccursAt(s, open, from) && FindClose(s, from + |open|).Some? then
      Some((from, FindClose(s, from + |open|).value))
    else
      FindSlot(s, open, from + 1)
  }

  /** The leftmost occurrence of `pat` at or after `from`. */
  function FindFirst(s: string, pat: string, from: nat): (r: Option<nat>)
    requires from <= |s|
    ensures r.Some? ==> from <= r.value && OccursAt(s, pat, r.value)
    ensures r.Some? ==> forall j: nat :: from <= j < r.value ==> !OccursAt(s, pat, j)
    ensures r.None? ==> forall j: nat :: from <= j ==> !OccursAt(s, pat, j)
    decreases |s| - from
  {
    if OccursAt(s, pat, from) then Some(from)
    else if from == |s| then None
    else FindFirst(s, pat, from + 1)
  }

  /**
   * `s.replace(/open.*?<\/div>/, rep)`: a string without a match is returned as it is;
   * otherwise exactly the first match is replaced and everything before and after it is kept.
   */
  function ReplaceMatch(s: string, open: string, rep: string): (r: string)
    ensures NoSlot(s, open) ==> r == s
    ensures forall p: nat, q: nat :: FirstSlot(s, open, p, q) ==> r == s[..p] + rep + s[q + |Close|..]
  {
    ReplaceMatchFrom(s, open, rep, 0)
  }

  /** The regex engine's scan: try each start position in turn, left to right. */
  function ReplaceMatchFrom(s: string, open: string, rep: string, from: nat): (r: string)
    requires from <= |s|
    requires forall p: nat, q: nat :: p < from ==> !SlotSpan(s, open, p, q)
    ensures NoSlot(s, open) ==> r == s
    ensures forall p: nat, q: nat :: FirstSlot(s, open, p, q) ==> r == s[..p] + rep + s[q + |Close|..]
    decreases |s| - from
  {
    if from == |s| then
      assert forall p: nat, q: nat :: p >= |s| ==> !SlotSpan(s, open, p, q);
      s
    else if OccursAt(s, open, from) && FindClose(s, from + |open|).Some? then
      var q := FindClose(s, from + |open|).value;
      FirstSlotUnique(s, open, from, q);
      s[..from] + rep + s[q + |Close|..]
    else
      ReplaceMatchFrom(s, open, rep, from + 1)
  }

  /** `s.replace(/<div class="cls">.*?<\/div>/, `<div class="cls">${content}</div>`)`. */
  function ReplaceSlot(s: string, cls: string, content: string): (r: string)
    ensures NoSlot(s, Open(cls)) ==> r == s
    ensures forall p: nat, q: nat :: FirstSlot(s, Open(cls), p, q) ==>
      r == s[..p] + Open(cls) + content + Close + s[q + |Close|..]
  {
    ReplaceMatch(s, Open(cls), Open(cls) + content + Close)
  }

  /** `s.replace(/pat/, rep)` for a pattern without metacharacters. */
  function ReplaceFirst(s: string, pat: string, rep: string): (r: string)
    ensures NoOcc(s, pat) ==> r == s
    ensures forall i: nat :: FirstOcc(s, pat, i) ==> r == s[..i] + rep + s[i + |pat|..]
  {
    ReplaceFirstFrom(s, pat, rep, 0)
  }

  function ReplaceFirstFrom(s: string, pat: string, rep: string, from: nat): (r: string)
    requires from <= |s|
    requires forall j: nat :: j < from ==> !OccursAt(s, pat, j)
    ensures NoOcc(s, pat) ==> r == s
    ensures forall i: nat :: FirstOcc(s, pat, i) ==> r == s[..i] + rep + s[i + |pat|..]
    decreases |s| - from
  {
    if OccursAt(s, pat, from) then
      FirstOccUnique(s, pat, from);
      s[..from] + rep + s[from + |pat|..]
    else if from == |s| then
      assert forall j: nat :: j > |s| ==> !OccursAt(s, pat, j);
      s
    else
      ReplaceFirstFrom(s, pat, rep, from + 1)
  }

  /** There is at most one first match. */
  lemma FirstSlotUnique(s: string, open: string, p: nat, q: nat)
    requires FirstSlot(s, open, p, q)
    ensures forall p': nat, q': nat :: FirstSlot(s, open, p', q') ==> p' == p && q' == q
  {
  }

  lemma FirstOccUnique(s: string, pat: string, i: nat)
    requires FirstOcc(s, pat, i)
    ensures forall j: nat :: FirstOcc(s, pat, j) ==> j == i
  {
  }

  /** Whenever the regex matches somewhere, it has a first match. */
  lemma FirstSlotExists(s: string, open: string)
    requires !NoSlot(s, open)
    ensures exists p: nat, q: nat :: FirstSlot(s, open, p, q)
  {
    var r := FindSlot(s, open, 0);
    assert r.Some?;
    assert FirstSlot(s, open, r.value.0, r.value.1);
  }

  // ---------------------------------------------------------------------------------------
  // Locality: a replacement only looks at the line that holds the first match.
  // ---------------------------------------------------------------------------------------

  lemma OpenHasNoLineTerminator(cls: string)
    requires ClassName(cls)
    ensures NoLineTerminator(Open(cls))
  {
    var o := Open(cls);
    forall i | 0 <= i < |o| ensures !IsLineTerminator(o[i]) {
      if 12 <= i < 12 + |cls| { assert o[i] == cls[i - 12]; }
    }
  }

  lemma OccursShift(a: string, b: string, pat: string, i: nat)
    ensures OccursAt(a + b, pat, |a| + i) == OccursAt(b, pat, i)
  {
    if i + |pat| <= |b| {
      assert (a + b)[|a| + i..|a| + i + |pat|] == b[i..i + |pat|];
    }
  }

  lemma OccursPrefix(a: string, b: string, pat: string, i: nat)
    requires i + |pat| <= |a|
    ensures OccursAt(a + b, pat, i) == OccursAt(a, pat, i)
  {
    assert (a + b)[i..i + |pat|] == a[i..i + |pat|];
  }

  lemma SlotSpanShift(a: string, b: string, open: string, p: nat, q: nat)
    ensures SlotSpan(a + b, open, |a| + p, |a| + q) == SlotSpan(b, open, p, q)
  {
    OccursShift(a, b, open, p);
    OccursShift(a, b, Close, q);
    var s := a + b;
    if SameLine(b, p + |open|, q) && q + |Close| <= |b| {
      forall k | |a| + p + |open| <= k < |a| + q ensures k < |s| && !IsLineTerminator(s[k]) {
        assert s[k] == b[k - |a|];
      }
    }
    if SameLine(s, |a| + p + |open|, |a| + q) && |a| + q + |Close| <= |s| {
      forall k | p + |open| <= k < q ensures k < |b| && !IsLineTerminator(b[k]) {
        assert s[|a| + k] == b[k];
      }
    }
  }

  /** A pattern without line terminators cannot occur across a line terminator. */
  lemma NotAcross(s: string, pat: string, i: nat, k: nat)
    requires NoLineTerminator(pat) && i <= k < i + |pat| && k < |s| && IsLineTerminator(s[k])
    ensures !OccursAt(s, pat, i)
  {
    if i + |pat| <= |s| {
      assert s[i..i + |pat|][k - i] == s[k];
      assert !IsLineTerminator(pat[k - i]);
    }
  }

  /**
   * When `b` starts a new line, a slot match that starts in `a` also ends in `a`: neither
   * the opening tag, nor `.*?`, nor `</div>` can cross the line terminator.
   */
  lemma SlotSpanInPrefix(a: string, b: string, open: string, p: nat, q: nat)
    requires NoLineTerminator(open) && b != [] && IsLineTerminator(b[0]) && p < |a|
    requires SlotSpan(a + b, open, p, q)
    ensures q + |Close| <= |a| && SlotSpan(a, open, p, q)
  {
    var s := a + b;
    assert s[|a|] == b[0];
    if p + |open| > |a| {
      NotAcross(s, open, p, |a|);
    }
    if q + |Close| > |a| && q <= |a| {
      NotAcross(s, Close, q, |a|);
    }
    OccursPrefix(a, b, open, p);
    OccursPrefix(a, b, Close, q);
    assert SameLine(a, p + |open|, q) by {
      forall k | p + |open| <= k < q ensures k < |a| && !IsLineTerminator(a[k]) {
        assert s[k] == a[k];
      }
    }
  }

  lemma SlotSpanExtend(a: string, b: string, open: string, p: nat, q: nat)
    requires SlotSpan(a, open, p, q)
    ensures SlotSpan(a + b, open, p, q)
  {
    OccursPrefix(a, b, open, p);
    OccursPrefix(a, b, Close, q);
    var s := a + b;
    forall k | p + |open| <= k < q ensures k < |s| && !IsLineTerminator(s[k]) {
      assert s[k] == a[k];
    }
  }

  /** No match can start in a line that lacks the opening tag. */
  lemma NoSlotStartsIn(a: string, b: string, open: string)
    requires NoLineTerminator(open) && NoOcc(a, open)
    requires a == [] || a[|a| - 1] == '\n'
    ensures forall p: nat, q: nat :: p < |a| ==> !SlotSpan(a + b, open, p, q)
  {
    var s := a + b;
    forall p: nat | p < |a| ensures !OccursAt(s, open, p) {
      if p + |open| <= |a| {
        OccursPrefix(a, b, open, p);
        assert !OccursAt(a, open, p);
      } else {
        assert s[|a| - 1] == a[|a| - 1];
        NotAcross(s, open, p, |a| - 1);
      }
    }
  }

  lemma NoSlotShift(a: string, b: string, open: string)
    requires NoLineTerminator(open) && NoOcc(a, open) && NoSlot(b, open)
    requires a == [] || a[|a| - 1] == '\n'
    ensures NoSlot(a + b, open)
  {
    NoSlotStartsIn(a, b, open);
    forall p: nat, q: nat | p >= |a| && q >= |a| ensures !SlotSpan(a + b, open, p, q) {
      SlotSpanShift(a, b, open, p - |a|, q - |a|);
    }
  }

  lemma FirstSlotShift(a: string, b: string, open: string, p: nat, q: nat)
    requires NoLineTerminator(open) && NoOcc(a, open) && FirstSlot(b, open, p, q)
    requires a == [] || a[|a| - 1] == '\n'
    ensures FirstSlot(a + b, open, |a| + p, |a| + q)
  {
    var s, start := a + b, |a| + p;
    SlotSpanShift(a, b, open, p, q);
    assert forall q': nat :: q' < |a| + q ==> !SlotSpan(s, open, start, q') by {
      forall q': nat | |a| <= q' < |a| + q ensures !SlotSpan(s, open, start, q') {
        SlotSpanShift(a, b, open, p, q' - |a|);
      }
    }
    assert forall p': nat, q': nat :: p' < start ==> !SlotSpan(s, open, p', q') by {
      NoSlotStartsIn(a, b, open);
      forall p': nat, q': nat | |a| <= p' < start && |a| <= q' ensures !SlotSpan(s, open, p', q') {
        SlotSpanShift(a, b, open, p' - |a|, q' - |a|);
      }
    }
  }

  /** The first match of `a` stays the first match when a new line `b` follows. */
  lemma FirstSlotExtend(a: string, b: string, open: string, p: nat, q: nat)
    requires NoLineTerminator(open) && b != [] && IsLineTerminator(b[0]) && FirstSlot(a, open, p, q)
    ensures FirstSlot(a + b, open, p, q)
  {
    var s := a + b;
    SlotSpanExtend(a, b, open, p, q);
    forall q': nat | q' < q && SlotSpan(s, open, p, q') ensures false {
      SlotSpanInPrefix(a, b, open, p, q');
    }
    forall p': nat, q': nat | p' < p && SlotSpan(s, open, p', q') ensures false {
      SlotSpanInPrefix(a, b, open, p', q');
    }
  }

  /** Splicing inside the left operand of a concatenation. */
  lemma SpliceSuffix(a: string, b: string, i: nat, j: nat, rep: string)
    requires i <= j <= |a|
    ensures (a + b)[..i] + rep + (a + b)[j..] == (a[..i] + rep + a[j..]) + b
  {
    assert (a + b)[..i] == a[..i];
    assert (a + b)[j..] == a[j..] + b;
  }

  lemma ReplaceMatchAt(s: string, open: string, rep: string, p: nat, q: nat)
    requires FirstSlot(s, open, p, q)
    ensures ReplaceMatch(s, open, rep) == s[..p] + rep + s[q + |Close|..]
  {
  }

  /** A line that lacks the slot's opening tag is passed over. */
  lemma ReplaceMatchAfter(a: string, b: string, open: string, rep: string)
    requires NoLineTerminator(open) && NoOcc(a, open)
    requires a == [] || a[|a| - 1] == '\n'
    ensures ReplaceMatch(a + b, open, rep) == a + ReplaceMatch(b, open, rep)
  {
    var m := FindSlot(b, open, 0);
    if m.None? {
      NoSlotShift(a, b, open);
    } else {
      ReplaceMatchAfterAt(a, b, open, rep, m.value.0, m.value.1);
    }
  }

  lemma ReplaceMatchAfterAt(a: string, b: string, open: string, rep: string, p: nat, q: nat)
    requires NoLineTerminator(open) && NoOcc(a, open) && FirstSlot(b, open, p, q)
    requires a == [] || a[|a| - 1] == '\n'
    ensures ReplaceMatch(a + b, open, rep) == a + ReplaceMatch(b, open, rep)
  {
    FirstSlotShift(a, b, open, p, q);
    ReplaceMatchShifted(a, b, open, rep, p, q);
    ReplaceMatchAt(b, open, rep, p, q);
  }

  /** A first match inside the right operand is spliced there. */
  lemma ReplaceMatchShifted(a: string, b: string, open: string, rep: string, p: nat, q: nat)
    requires p <= q + |Close| <= |b| && FirstSlot(a + b, open, |a| + p, |a| + q)
    ensures ReplaceMatch(a + b, open, rep) == a + (b[..p] + rep + b[q + |Close|..])
  {
    ReplaceMatchAt(a + b, open, rep, |a| + p, |a| + q);
    SpliceRight(ReplaceMatch(a + b, open, rep), a, b, p, q + |Close| - p, rep);
  }

  /** When the first match lies in `a` and `b` starts a new line, `b` is left as it is. */
  lemma ReplaceMatchBefore(a: string, b: string, open: string, rep: string, p: nat, q: nat)
    requires NoLineTerminator(open) && b != [] && IsLineTerminator(b[0])
    requires SlotSpan(a, open, p, q)
    ensures ReplaceMatch(a + b, open, rep) == ReplaceMatch(a, open, rep) + b
  {
    var m := FindSlot(a, open, 0);
    assert m.Some?;
    ReplaceMatchBeforeAt(a, b, open, rep, m.value.0, m.value.1);
  }

  lemma ReplaceMatchBeforeAt(a: string, b: string, open: string, rep: string, p: nat, q: nat)
    requires NoLineTerminator(open) && b != [] && IsLineTerminator(b[0])
    requires FirstSlot(a, open, p, q)
    ensures ReplaceMatch(a + b, open, rep) == ReplaceMatch(a, open, rep) + b
  {
    var s, end := a + b, q + |Close|;
    var head := a[..p] + rep + a[end..];
    assert ReplaceMatch(a, open, rep) == head by {
      ReplaceMatchAt(a, open, rep, p, q);
    }
    assert ReplaceMatch(s, open, rep) == head + b by {
      FirstSlotExtend(a, b, open, p, q);
      ReplaceMatchAt(s, open, rep, p, q);
      SpliceSuffix(a, b, p, end, rep);
    }
  }

  /** In `open + body + </div>`, with no tag inside `body`, the whole string is the first match. */
  lemma FirstSlotOfLine(open: string, body: string)
    requires NoAngle(body) && NoLineTerminator(body)
    ensures FirstSlot(open + body + Close, open, 0, |open| + |body|)
  {
    var s := open + body + Close;
    var q := |open| + |body|;
    assert OccursAt(s, open, 0) by { assert s[..|open|] == open; }
    assert OccursAt(s, Close, q) by { assert s[q..q + |Close|] == Close; }
    forall q': nat | |open| <= q' < q ensures !OccursAt(s, Close, q') {
      assert s[q'] == body[q' - |open|];
    }
    forall k | |open| <= k < q ensures k < |s| && !IsLineTerminator(s[k]) {
      assert s[k] == body[k - |open|];
    }
  }

  /** Text without `<` holds no start of a tag, even when more text follows it. */
  lemma NoTagStartsIn(indent: string, t: string, pat: string)
    requires NoAngle(indent) && |pat| > 0 && pat[0] == '<'
    ensures forall i: nat :: i < |indent| ==> !OccursAt(indent + t, pat, i)
  {
    forall i: nat | i < |indent| ensures !OccursAt(indent + t, pat, i) {
      if i + |pat| <= |indent + t| {
        assert (indent + t)[i..i + |pat|][0] == indent[i];
      }
    }
  }

  /** Indentation without `<` in front of a text cannot create a tag in it. */
  lemma NoOccIndented(indent: string, t: string, pat: string)
    requires NoAngle(indent) && |pat| > 0 && pat[0] == '<' && NoOcc(t, pat)
    ensures NoOcc(indent + t, pat)
  {
    NoTagStartsIn(indent, t, pat);
    forall i: nat | i >= |indent| ensures !OccursAt(indent + t, pat, i) {
      OccursShift(indent, t, pat, i - |indent|);
    }
  }

  /** Shifting a text right keeps a lazy end lazy: no earlier close ends the same slot. */
  lemma LazyEndShift(a: string, b: string, s: string, open: string, p: nat, q: nat, shifted: nat)
    requires s == a + b && shifted == |a| + p
    requires forall q': nat :: q' < q ==> !SlotSpan(b, open, p, q')
    ensures forall q': nat :: q' < |a| + q ==> !SlotSpan(s, open, shifted, q')
  {
    forall q': nat | q' < |a| + q ensures !SlotSpan(s, open, shifted, q') {
      if q' >= |a| {
        SlotSpanShift(a, b, open, p, q' - |a|);
      }
    }
  }

  /** A slot needs its opening tag, so no slot starts where the tag does not occur. */
  lemma NoSlotBefore(s: string, open: string, p: nat)
    requires forall i: nat :: i < p ==> !OccursAt(s, open, i)
    ensures forall p': nat, q': nat :: p' < p ==> !SlotSpan(s, open, p', q')
  {
  }

  /** An indented one-line slot: the match is still the slot itself. */
  lemma FirstSlotOfIndentedLine(indent: string, open: string, body: string)
    requires NoAngle(indent) && |open| > 0 && open[0] == '<'
    requires NoAngle(body) && NoLineTerminator(body)
    ensures FirstSlot(indent + open + body + Close, open, |indent|, |indent| + |open| + |body|)
  {
    var u := open + body + Close;
    var q := |open| + |body|;
    assert indent + u == indent + open + body + Close;
    FirstSlotOfLine(open, body);
    SlotSpanShift(indent, u, open, 0, q);
    LazyEndShift(indent, u, indent + u, open, 0, q, |indent|);
    NoTagStartsIn(indent, u, open);
    NoSlotBefore(indent + u, open, |indent|);
  }

  /** An indented one-line slot whose old content has no tag gets exactly the new content. */
  lemma ReplaceMatchLine(indent: string, open: string, body: string, rep: string)
    requires NoAngle(indent) && |open| > 0 && open[0] == '<'
    requires NoAngle(body) && NoLineTerminator(body)
    ensures ReplaceMatch(indent + open + body + Close, open, rep) == indent + rep
  {
    var s := indent + open + body + Close;
    FirstSlotOfIndentedLine(indent, open, body);
    ReplaceMatchAt(s, open, rep, |indent|, |indent| + |open| + |body|);
    assert s[..|indent|] == indent;
    assert s[|indent| + |open| + |body| + |Close|..] == [];
  }

  // ---------------------------------------------------------------------------------------
  // The same locality facts for the plain tag replacement.
  // ---------------------------------------------------------------------------------------

  lemma ReplaceFirstAt(s: string, pat: string, rep: string, i: nat)
    requires FirstOcc(s, pat, i)
    ensures ReplaceFirst(s, pat, rep) == s[..i] + rep + s[i + |pat|..]
  {
  }

  lemma FirstOccShift(a: string, b: string, pat: string, i: nat)
    requires NoLineTerminator(pat) && NoOcc(a, pat) && FirstOcc(b, pat, i)
    requires a == [] || a[|a| - 1] == '\n'
    ensures FirstOcc(a + b, pat, |a| + i)
  {
    var s := a + b;
    OccursShift(a, b, pat, i);
    forall j: nat | j < |a| + i ensures !OccursAt(s, pat, j) {
      if j >= |a| {
        OccursShift(a, b, pat, j - |a|);
      } else if j + |pat| <= |a| {
        OccursPrefix(a, b, pat, j);
        assert !OccursAt(a, pat, j);
      } else {
        assert s[|a| - 1] == a[|a| - 1];
        NotAcross(s, pat, j, |a| - 1);
      }
    }
  }

  lemma NoOccShift(a: string, b: string, pat: string)
    requires NoLineTerminator(pat) && NoOcc(a, pat) && NoOcc(b, pat)
    requires a == [] || a[|a| - 1] == '\n'
    ensures NoOcc(a + b, pat)
  {
    var s := a + b;
    forall j: nat ensures !OccursAt(s, pat, j) {
      if j >= |a| {
        OccursShift(a, b, pat, j - |a|);
      } else if j + |pat| <= |a| {
        OccursPrefix(a, b, pat, j);
        assert !OccursAt(a, pat, j);
      } else {
        assert s[|a| - 1] == a[|a| - 1];
        NotAcross(s, pat, j, |a| - 1);
      }
    }
  }

  lemma ReplaceFirstAfter(a: string, b: string, pat: string, rep: string)
    requires NoLineTerminator(pat) && NoOcc(a, pat)
    requires a == [] || a[|a| - 1] == '\n'
    ensures ReplaceFirst(a + b, pat, rep) == a + ReplaceFirst(b, pat, rep)
  {
    var j := FindFirst(b, pat, 0);
    if j.None? {
      NoOccShift(a, b, pat);
    } else {
      ReplaceFirstAfterAt(a, b, pat, rep, j.value);
    }
  }

  lemma ReplaceFirstAfterAt(a: string, b: string, pat: string, rep: string, i: nat)
    requires NoLineTerminator(pat) && NoOcc(a, pat) && FirstOcc(b, pat, i)
    requires a == [] || a[|a| - 1] == '\n'
    ensures ReplaceFirst(a + b, pat, rep) == a + ReplaceFirst(b, pat, rep)
  {
    FirstOccShift(a, b, pat, i);
    ReplaceFirstShifted(a, b, pat, rep, i);
    ReplaceFirstAt(b, pat, rep, i);
  }

  /** A first occurrence inside the right operand is spliced there. */
  lemma ReplaceFirstShifted(a: string, b: string, pat: string, rep: string, i: nat)
    requires i + |pat| <= |b| && FirstOcc(a + b, pat, |a| + i)
    ensures ReplaceFirst(a + b, pat, rep) == a + (b[..i] + rep + b[i + |pat|..])
  {
    ReplaceFirstAt(a + b, pat, rep, |a| + i);
    SpliceRight(ReplaceFirst(a + b, pat, rep), a, b, i, |pat|, rep);
  }

  /** Splicing inside the right operand of a concatenation, stated about a given result. */
  lemma SpliceRight(r: string, a: string, b: string, i: nat, n: nat, rep: string)
    requires i + n <= |b| && r == (a + b)[..|a| + i] + rep + (a + b)[|a| + i + n..]
    ensures r == a + (b[..i] + rep + b[i + n..])
  {
    assert (a + b)[..|a| + i] == a + b[..i];
    assert (a + b)[|a| + i + n..] == b[i + n..];
  }

  lemma ReplaceFirstBefore(a: string, b: string, pat: string, rep: string, i: nat)
    requires NoLineTerminator(pat) && b != [] && IsLineTerminator(b[0])
    requires OccursAt(a, pat, i)
    ensures ReplaceFirst(a + b, pat, rep) == ReplaceFirst(a, pat, rep) + b
  {
    var s := a + b;
    var i0 := FindFirst(a, pat, 0).value;
    assert FirstOcc(a, pat, i0);
    OccursPrefix(a, b, pat, i0);
    forall i': nat | i' < i0 ensures !OccursAt(s, pat, i') {
      OccursPrefix(a, b, pat, i');
    }
    assert FirstOcc(s, pat, i0);
    ReplaceFirstAt(s, pat, rep, i0);
    ReplaceFirstAt(a, pat, rep, i0);
    SpliceSuffix(a, b, i0, i0 + |pat|, rep);
  }

  /** An indented line that starts with the tag: the tag after the indentation is replaced. */
  lemma ReplaceFirstLine(indent: string, pat: string, rest: string, rep: string)
    requires NoAngle(indent) && |pat| > 0 && pat[0] == '<'
    ensures ReplaceFirst(indent + pat + rest, pat, rep) == indent + rep + rest
  {
    var s := indent + pat + rest;
    assert s == indent + (pat + rest);
    assert OccursAt(s, pat, |indent|) by { assert s[|indent|..|indent| + |pat|] == pat; }
    NoTagStartsIn(indent, pat + rest, pat);
    assert FirstOcc(s, pat, |indent|);
    ReplaceFirstAt(s, pat, rep, |indent|);
    assert s[..|indent|] == indent;
    assert s[|indent| + |pat|..] == rest;
  }

  /** Joining two lines that lack a pattern cannot create it, when the pattern is one line. */
  lemma NoOccJoin(a: string, b: string, pat: string)
    requires NoLineTerminator(pat) && NoOcc(a, pat) && NoOcc(b, pat)
    ensures NoOcc(a + "\n" + b, pat)
  {
    var s := a + "\n";
    assert |pat| > 0 by { assert !OccursAt(a, pat, 0); }
    forall j: nat ensures !OccursAt(s, pat, j) {
      if j + |pat| <= |a| {
        OccursPrefix(a, "\n", pat, j);
        assert !OccursAt(a, pat, j);
      } else if j <= |a| {
        assert s[|a|] == '\n';
        NotAcross(s, pat, j, |a|);
      } else {
        assert j + |pat| > |s|;
      }
    }
    NoOccShift(s, b, pat);
  }
}

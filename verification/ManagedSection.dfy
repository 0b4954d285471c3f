/** The managed section of a work item's body: splicing it in and reading it back. */
module ManagedSection {
  import opened Wrappers

  const BEGIN := "<!-- overture:managed:begin -->"
  const END := "<!-- overture:managed:end -->"

  // --------------------------------------------------------------- searching

  predicate OccursAt(s: string, m: string, p: nat) {
    p + |m| <= |s| && s[p..p + |m|] == m
  }

  predicate Lacks(s: string, m: string) {
    forall p :: 0 <= p <= |s| ==> !OccursAt(s, m, p)
  }

  /** It occurs there and nowhere else. */
  predicate OnlyAt(s: string, m: string, p: nat) {
    OccursAt(s, m, p) && forall q :: 0 <= q <= |s| && OccursAt(s, m, q) ==> q == p
  }

  /** The first occurrence at or after a position. */
  function IndexFrom(s: string, m: string, p: nat): (r: Option<nat>)
    requires p <= |s|
    ensures r.Some? ==> r.value + |m| <= |s|
    decreases |s| - p
  {
    if OccursAt(s, m, p) then Some(p) else if p == |s| then None else IndexFrom(s, m, p + 1)
  }

  function IndexOf(s: string, m: string): (r: Option<nat>)
    ensures r.Some? ==> r.value + |m| <= |s|
  {
    IndexFrom(s, m, 0)
  }

  /** The last occurrence before or at a position. */
  function LastIndexUpTo(s: string, m: string, p: nat): Option<nat> {
    if OccursAt(s, m, p) then Some(p) else if p == 0 then None else LastIndexUpTo(s, m, p - 1)
  }

  function LastIndexOf(s: string, m: string): Option<nat> {
    LastIndexUpTo(s, m, |s|)
  }

  lemma {:induction false} IndexFromSpec(s: string, m: string, p: nat)
    requires p <= |s|
    ensures match IndexFrom(s, m, p)
      case Some(r) => p <= r <= |s| && OccursAt(s, m, r) && forall q :: p <= q < r ==> !OccursAt(s, m, q)
      case None => forall q :: p <= q <= |s| ==> !OccursAt(s, m, q)
    decreases |s| - p
  {
    if !OccursAt(s, m, p) && p < |s| {
      IndexFromSpec(s, m, p + 1);
    }
  }

  /** The first occurrence, or none because there is no occurrence. */
  lemma {:induction false} IndexSpec(s: string, m: string)
    ensures match IndexOf(s, m)
      case Some(r) => r <= |s| && OccursAt(s, m, r) && forall q :: 0 <= q < r ==> !OccursAt(s, m, q)
      case None => true
    ensures IndexOf(s, m).None? <==> Lacks(s, m)
  {
    IndexFromSpec(s, m, 0);
  }

  lemma {:induction false} LastIndexUpToSpec(s: string, m: string, p: nat)
    ensures match LastIndexUpTo(s, m, p)
      case Some(r) => r <= p && OccursAt(s, m, r) && forall q :: r < q <= p ==> !OccursAt(s, m, q)
      case None => forall q :: 0 <= q <= p ==> !OccursAt(s, m, q)
  {
    if !OccursAt(s, m, p) && p > 0 {
      LastIndexUpToSpec(s, m, p - 1);
    }
  }

  lemma {:induction false} LastIndexSpec(s: string, m: string)
    ensures match LastIndexOf(s, m)
      case Some(r) => r <= |s| && OccursAt(s, m, r) && forall q :: r < q <= |s| ==> !OccursAt(s, m, q)
      case None => true
    ensures LastIndexOf(s, m).None? <==> Lacks(s, m)
  {
    LastIndexUpToSpec(s, m, |s|);
  }

  // ---------------------------------------------------------------- trimming

  predicate IsBlank(c: char) {
    c in " \t\n\r" || c == '\U{000B}' || c == '\U{000C}' || c == '\U{00A0}' || c == '\U{1680}'
    || '\U{2000}' <= c <= '\U{200A}' || c == '\U{2028}' || c == '\U{2029}' || c == '\U{202F}'
    || c == '\U{205F}' || c == '\U{3000}' || c == '\U{FEFF}'
  }

  function TrimStart(s: string): (r: string)
    ensures |r| <= |s| && (r == "" || !IsBlank(r[0]))
    ensures s == "" || !IsBlank(s[0]) ==> r == s
  {
    if s != "" && IsBlank(s[0]) then TrimStart(s[1..]) else s
  }

  function TrimEnd(s: string): (r: string)
    ensures |r| <= |s| && r == s[..|r|] && (r == "" || !IsBlank(r[|r| - 1]))
    ensures s == "" || !IsBlank(s[|s| - 1]) ==> r == s
  {
    if s != "" && IsBlank(s[|s| - 1]) then TrimEnd(s[..|s| - 1]) else s
  }

  function Trim(s: string): (r: string)
    ensures |r| <= |s| && IsTrimmed(r)
    ensures IsTrimmed(s) ==> r == s
  {
    var t := TrimStart(s);
    var r := TrimEnd(t);
    assert r != "" ==> r[0] == t[0];
    r
  }

  predicate IsTrimmed(s: string) {
    s == "" || (!IsBlank(s[0]) && !IsBlank(s[|s| - 1]))
  }

  /** Lines added around a trimmed text are trimmed off again. */
  lemma {:induction false} TrimInner(t: string)
    requires IsTrimmed(t)
    ensures Trim("\n" + t + "\n") == t
  {
    var s := "\n" + t + "\n";
    assert s[1..] == t + "\n";
    if t == "" {
      assert TrimStart("\n") == TrimStart("\n"[1..]) == "";
      assert s[1..] == "\n";
    } else {
      assert (t + "\n")[..|t|] == t;
      assert TrimStart(s) == t + "\n";
    }
  }

  predicate AllBlank(s: string) {
    forall i :: 0 <= i < |s| ==> IsBlank(s[i])
  }

  lemma {:induction false} TrimStartCuts(s: string) returns (front: string)
    ensures AllBlank(front) && s == front + TrimStart(s)
  {
    if s != "" && IsBlank(s[0]) {
      var rest := TrimStartCuts(s[1..]);
      front := [s[0]] + rest;
    } else {
      front := "";
    }
  }

  lemma {:induction false} TrimEndCuts(s: string) returns (end: string)
    ensures AllBlank(end) && s == TrimEnd(s) + end
  {
    if s != "" && IsBlank(s[|s| - 1]) {
      var rest := TrimEndCuts(s[..|s| - 1]);
      end := rest + [s[|s| - 1]];
    } else {
      end := "";
    }
  }

  /** Trimming cuts blanks from either end, all that there are. */
  lemma {:induction false} TrimCutsBlanks(s: string) returns (front: string, end: string)
    ensures AllBlank(front) && AllBlank(end) && s == front + Trim(s) + end && IsTrimmed(Trim(s))
  {
    front := TrimStartCuts(s);
    end := TrimEndCuts(TrimStart(s));
  }

  /** Nothing is left exactly of what is all blank. */
  lemma {:induction false} TrimEmptyIff(s: string)
    ensures Trim(s) == "" <==> AllBlank(s)
  {
    var front, end := TrimCutsBlanks(s);
    if Trim(s) == "" {
      assert s == front + end;
    } else {
      assert s[|front|] == Trim(s)[0] && !IsBlank(Trim(s)[0]);
    }
  }

  // ----------------------------------------------------------------- sections

  function Section(content: string): string {
    BEGIN + "\n" + Trim(content) + "\n" + END
  }

  datatype Refusal = Damaged | Duplicated

  datatype Upserted = Applied(body: string) | Refused(body: string, reason: Refusal)

  function Separator(body: string): string {
    if |Trim(body)| > 0 then "\n\n" else ""
  }

  /** Replaces the managed section or appends one; a body whose markers are tampered with stays as it is. */
  function Upsert(body: string, content: string): Upserted {
    var b, e := IndexOf(body, BEGIN), IndexOf(body, END);
    if b.None? && e.None? then Applied(body + Separator(body) + Section(content))
    else if b.None? || e.None? || e.value < b.value then Refused(body, Damaged)
    else if b != LastIndexOf(body, BEGIN) || e != LastIndexOf(body, END) then Refused(body, Duplicated)
    else Applied(body[..b.value] + Section(content) + body[e.value + |END|..])
  }

  function Read(body: string): Option<string> {
    var b, e := IndexOf(body, BEGIN), IndexOf(body, END);
    if b.None? || e.None? || e.value < b.value then None
    else if b.value + |BEGIN| <= e.value then Some(Trim(body[b.value + |BEGIN|..e.value]))
    else Some("")
  }

  // -------------------------------------------------- markers never overlap anything

  /** It opens only at its start, closes only at its end, and stays on one line. */
  predicate IsMarker(m: string) {
    && |m| >= 2 && m[0] == '<' && m[|m| - 1] == '>'
    && (forall i :: 0 < i < |m| ==> m[i] != '<')
    && (forall i :: 0 <= i < |m| - 1 ==> m[i] != '>')
    && (forall i :: 0 <= i < |m| ==> m[i] != '\n')
  }

  lemma {:induction false} MarkersAreMarkers()
    ensures IsMarker(BEGIN) && IsMarker(END)
  {
  }

  /** No marker reaches over a place where one opens, one has closed, or a line breaks. */
  predicate IsSeam(x: string, y: string) {
    || (y != "" && (y[0] == '<' || y[0] == '\n'))
    || (x != "" && (x[|x| - 1] == '>' || x[|x| - 1] == '\n'))
    || x == "" || y == ""
  }

  lemma {:induction false} OccurrenceChars(s: string, m: string, p: nat, i: nat)
    requires OccursAt(s, m, p) && i < |m|
    ensures s[p + i] == m[i]
  {
    assert s[p..p + |m|][i] == s[p + i];
  }

  lemma {:induction false} NoneAcross(x: string, y: string, m: string, p: nat)
    requires IsMarker(m) && IsSeam(x, y) && OccursAt(x + y, m, p)
    ensures p + |m| <= |x| || p >= |x|
  {
    if p < |x| < p + |m| {
      var i := |x| - p;
      OccurrenceChars(x + y, m, p, i);
      OccurrenceChars(x + y, m, p, i - 1);
    }
  }

  /** Across a seam a text has exactly the occurrences of its two parts. */
  lemma {:induction false} OccursInParts(x: string, y: string, m: string, p: nat)
    requires IsMarker(m) && IsSeam(x, y)
    ensures OccursAt(x + y, m, p) <==> OccursAt(x, m, p) || (p >= |x| && OccursAt(y, m, p - |x|))
  {
    if p + |m| <= |x| {
      assert (x + y)[p..p + |m|] == x[p..p + |m|];
    }
    if p >= |x| && p + |m| <= |x + y| {
      assert (x + y)[p..p + |m|] == y[p - |x|..p - |x| + |m|];
    }
    if OccursAt(x + y, m, p) {
      NoneAcross(x, y, m, p);
    }
  }

  function Shifted(r: Option<nat>, offset: nat): Option<nat> {
    if r.Some? then Some(r.value + offset) else None
  }

  lemma {:induction false} IndexIs(s: string, m: string, p: nat)
    requires p <= |s| && OccursAt(s, m, p) && forall q :: 0 <= q < p ==> !OccursAt(s, m, q)
    ensures IndexOf(s, m) == Some(p)
  {
    IndexSpec(s, m);
  }

  lemma {:induction false} LastIndexIs(s: string, m: string, p: nat)
    requires p <= |s| && OccursAt(s, m, p) && forall q :: p < q <= |s| ==> !OccursAt(s, m, q)
    ensures LastIndexOf(s, m) == Some(p)
  {
    LastIndexSpec(s, m);
  }

  lemma {:induction false} FirstInLeft(x: string, y: string, m: string)
    requires IsMarker(m) && IsSeam(x, y) && IndexOf(x, m).Some?
    ensures IndexOf(x + y, m) == IndexOf(x, m)
  {
    IndexSpec(x, m);
    var first := IndexOf(x, m).value;
    forall q | 0 <= q < first
      ensures !OccursAt(x + y, m, q)
    {
      OccursInParts(x, y, m, q);
    }
    OccursInParts(x, y, m, first);
    IndexIs(x + y, m, first);
  }

  lemma {:induction false} NoneBefore(x: string, y: string, m: string, last: nat)
    requires IsMarker(m) && IsSeam(x, y) && Lacks(x, m) && last <= |y| + 1
    requires forall q :: 0 <= q < last ==> !OccursAt(y, m, q)
    ensures forall q :: 0 <= q < |x| + last ==> !OccursAt(x + y, m, q)
  {
    forall q | 0 <= q < |x| + last
      ensures !OccursAt(x + y, m, q)
    {
      OccursInParts(x, y, m, q);
    }
  }

  lemma {:induction false} FirstInRight(x: string, y: string, m: string)
    requires IsMarker(m) && IsSeam(x, y) && IndexOf(x, m).None?
    ensures IndexOf(x + y, m) == Shifted(IndexOf(y, m), |x|)
  {
    IndexSpec(x, m);
    IndexSpec(y, m);
    if IndexOf(y, m).Some? {
      var last := IndexOf(y, m).value;
      NoneBefore(x, y, m, last);
      OccursInParts(x, y, m, |x| + last);
      IndexIs(x + y, m, |x| + last);
    } else {
      NoneBefore(x, y, m, |y| + 1);
      IndexSpec(x + y, m);
    }
  }

  /** Across a seam the first occurrence is that of the left part, or else that of the right. */
  lemma {:induction false} IndexInParts(x: string, y: string, m: string)
    requires IsMarker(m) && IsSeam(x, y)
    ensures IndexOf(x + y, m) == if IndexOf(x, m).Some? then IndexOf(x, m) else Shifted(IndexOf(y, m), |x|)
  {
    if IndexOf(x, m).Some? {
      FirstInLeft(x, y, m);
    } else {
      FirstInRight(x, y, m);
    }
  }

  lemma {:induction false} LastInRight(x: string, y: string, m: string)
    requires IsMarker(m) && IsSeam(x, y) && LastIndexOf(y, m).Some?
    ensures LastIndexOf(x + y, m) == Shifted(LastIndexOf(y, m), |x|)
  {
    LastIndexSpec(y, m);
    var last := |x| + LastIndexOf(y, m).value;
    forall q | last < q <= |x + y|
      ensures !OccursAt(x + y, m, q)
    {
      OccursInParts(x, y, m, q);
    }
    OccursInParts(x, y, m, last);
    LastIndexIs(x + y, m, last);
  }

  lemma {:induction false} LastInLeft(x: string, y: string, m: string)
    requires IsMarker(m) && IsSeam(x, y) && LastIndexOf(y, m).None?
    ensures LastIndexOf(x + y, m) == LastIndexOf(x, m)
  {
    LastIndexSpec(x, m);
    LastIndexSpec(y, m);
    LastIndexSpec(x + y, m);
    var last := LastIndexOf(x, m);
    forall q | 0 <= q <= |x + y| && (last.None? || q > last.value)
      ensures !OccursAt(x + y, m, q)
    {
      OccursInParts(x, y, m, q);
    }
    if last.Some? {
      OccursInParts(x, y, m, last.value);
      LastIndexIs(x + y, m, last.value);
    }
  }

  /** And the last is that of the right part, or else that of the left. */
  lemma {:induction false} LastIndexInParts(x: string, y: string, m: string)
    requires IsMarker(m) && IsSeam(x, y)
    ensures LastIndexOf(x + y, m) ==
      if LastIndexOf(y, m).Some? then Shifted(LastIndexOf(y, m), |x|) else LastIndexOf(x, m)
  {
    if LastIndexOf(y, m).Some? {
      LastInRight(x, y, m);
    } else {
      LastInLeft(x, y, m);
    }
  }

  predicate Absent(s: string, m: string) {
    IndexOf(s, m).None? && LastIndexOf(s, m).None?
  }

  lemma {:induction false} AbsentIffLacks(s: string, m: string)
    ensures Absent(s, m) <==> Lacks(s, m)
    ensures IndexOf(s, m).None? <==> Lacks(s, m)
    ensures LastIndexOf(s, m).None? <==> Lacks(s, m)
  {
    IndexSpec(s, m);
    LastIndexSpec(s, m);
  }

  /** A marker occurs in itself once. */
  lemma {:induction false} MarkerInItself(m: string)
    requires IsMarker(m)
    ensures IndexOf(m, m) == LastIndexOf(m, m) == Some(0)
  {
    IndexIs(m, m, 0);
    LastIndexIs(m, m, 0);
  }

  lemma {:induction false} ShorterLacks(s: string, m: string)
    requires |s| < |m|
    ensures Absent(s, m)
  {
    AbsentIffLacks(s, m);
  }

  lemma {:induction false} NoEndInBegin()
    ensures Absent(BEGIN, END)
  {
    forall p | 0 <= p <= |BEGIN|
      ensures !OccursAt(BEGIN, END, p)
    {
      if OccursAt(BEGIN, END, p) {
        OccurrenceChars(BEGIN, END, p, 0);
        OccurrenceChars(BEGIN, END, p, |END| - 1);
      }
    }
    AbsentIffLacks(BEGIN, END);
  }

  // ------------------------------------------------------------ a spliced body

  predicate Bare(s: string) {
    Absent(s, BEGIN) && Absent(s, END)
  }

  function Spliced(before: string, content: string, after: string): string {
    before + Section(content) + after
  }

  /** The parts of a spliced body from one seam to the next. */
  function FromEnd(after: string): string {
    "\n" + (END + after)
  }

  function FromContent(t: string, after: string): string {
    "\n" + (t + FromEnd(after))
  }

  lemma {:induction false} SplicedParts(before: string, content: string, after: string)
    ensures Spliced(before, content, after) == before + (BEGIN + FromContent(Trim(content), after))
  {
  }

  /** Behind two parts without the marker everything is where it is in the rest. */
  lemma {:induction false} BehindTwo(x: string, y: string, z: string, m: string)
    requires IsMarker(m) && IsSeam(x, y + z) && IsSeam(y, z) && Absent(x, m) && Absent(y, m)
    ensures IndexOf(x + (y + z), m) == Shifted(IndexOf(z, m), |x| + |y|)
    ensures LastIndexOf(x + (y + z), m) == Shifted(LastIndexOf(z, m), |x| + |y|)
  {
    IndexInParts(y, z, m);
    IndexInParts(x, y + z, m);
    LastIndexInParts(y, z, m);
    LastIndexInParts(x, y + z, m);
  }

  /** A part that may have the marker, between one that has not and one that may. */
  lemma {:induction false} InBetween(x: string, t: string, z: string, m: string)
    requires IsMarker(m) && IsSeam(x, t + z) && IsSeam(t, z) && Absent(x, m)
    ensures IndexOf(x + (t + z), m) ==
      Shifted(if IndexOf(t, m).Some? then IndexOf(t, m) else Shifted(IndexOf(z, m), |t|), |x|)
    ensures LastIndexOf(x + (t + z), m) ==
      Shifted(if LastIndexOf(z, m).Some? then Shifted(LastIndexOf(z, m), |t|) else LastIndexOf(t, m), |x|)
  {
    IndexInParts(t, z, m);
    IndexInParts(x, t + z, m);
    LastIndexInParts(t, z, m);
    LastIndexInParts(x, t + z, m);
  }

  /** A marker in front of a part without it. */
  lemma {:induction false} MarkerThenNone(x: string, m: string, z: string)
    requires IsMarker(m) && IsSeam(x, m + z) && Absent(x, m) && Absent(z, m)
    ensures IndexOf(x + (m + z), m) == LastIndexOf(x + (m + z), m) == Some(|x|)
  {
    MarkerInItself(m);
    InBetween(x, m, z, m);
  }

  lemma {:induction false} TailOfSection(after: string)
    requires Bare(after)
    ensures IndexOf(FromEnd(after), END) == LastIndexOf(FromEnd(after), END) == Some(1)
    ensures Absent(FromEnd(after), BEGIN)
  {
    MarkersAreMarkers();
    ShorterLacks("\n", BEGIN);
    ShorterLacks("\n", END);
    ShorterLacks(END, BEGIN);
    MarkerThenNone("\n", END, after);
    BehindTwo("\n", END, after, BEGIN);
  }

  lemma {:induction false} EndInContent(t: string, after: string)
    requires Bare(after)
    ensures IndexOf(FromContent(t, after), END) == Some(1 + (if IndexOf(t, END).Some? then IndexOf(t, END).value else |t| + 1))
    ensures LastIndexOf(FromContent(t, after), END) == Some(|t| + 2)
  {
    MarkersAreMarkers();
    TailOfSection(after);
    ShorterLacks("\n", END);
    InBetween("\n", t, FromEnd(after), END);
  }

  lemma {:induction false} EndInParts(before: string, t: string, after: string)
    requires Bare(before) && Bare(after)
    ensures var body, at := before + (BEGIN + FromContent(t, after)), |before| + |BEGIN| + 1;
      && IndexOf(body, END) == Some(at + (if IndexOf(t, END).Some? then IndexOf(t, END).value else |t| + 1))
      && LastIndexOf(body, END) == Some(at + |t| + 1)
  {
    MarkersAreMarkers();
    NoEndInBegin();
    EndInContent(t, after);
    BehindTwo(before, BEGIN, FromContent(t, after), END);
  }

  /** Where a spliced body ends its section: first by its content's own end marker, if it has one. */
  lemma {:induction false} EndInSpliced(before: string, content: string, after: string)
    requires Bare(before) && Bare(after)
    ensures var t, body, at := Trim(content), Spliced(before, content, after), |before| + |BEGIN| + 1;
      && IndexOf(body, END) == Some(at + (if IndexOf(t, END).Some? then IndexOf(t, END).value else |t| + 1))
      && LastIndexOf(body, END) == Some(at + |t| + 1)
  {
    SplicedParts(before, content, after);
    EndInParts(before, Trim(content), after);
  }

  lemma {:induction false} BeginInContent(t: string, after: string)
    requires Bare(after)
    ensures IndexOf(FromContent(t, after), BEGIN) == Shifted(IndexOf(t, BEGIN), 1)
    ensures LastIndexOf(FromContent(t, after), BEGIN) == Shifted(LastIndexOf(t, BEGIN), 1)
  {
    MarkersAreMarkers();
    TailOfSection(after);
    ShorterLacks("\n", BEGIN);
    InBetween("\n", t, FromEnd(after), BEGIN);
  }

  /** And where it begins: last by its content's own begin marker, if it has one. */
  lemma {:induction false} BeginInSpliced(before: string, content: string, after: string)
    requires Bare(before) && Bare(after)
    ensures var t, body, at := Trim(content), Spliced(before, content, after), |before| + |BEGIN| + 1;
      && IndexOf(body, BEGIN) == Some(|before|)
      && LastIndexOf(body, BEGIN) ==
           (if LastIndexOf(t, BEGIN).None? then Some(|before|) else Shifted(LastIndexOf(t, BEGIN), at))
  {
    var t := Trim(content);
    MarkersAreMarkers();
    SplicedParts(before, content, after);
    BeginInContent(t, after);
    MarkerInItself(BEGIN);
    InBetween(before, BEGIN, FromContent(t, after), BEGIN);
  }

  // ----------------------------------------------------------------- theorems

  /** No marker at all, or each once and in order. */
  predicate IsIntact(body: string) {
    Bare(body) || exists b, e :: 0 <= b < e <= |body| && OnlyAt(body, BEGIN, b) && OnlyAt(body, END, e)
  }

  lemma {:induction false} OnlyByIndexes(s: string, m: string, p: nat)
    requires m != ""
    ensures OnlyAt(s, m, p) <==> IndexOf(s, m) == Some(p) == LastIndexOf(s, m)
  {
    IndexSpec(s, m);
    LastIndexSpec(s, m);
    if OnlyAt(s, m, p) {
      IndexIs(s, m, p);
      LastIndexIs(s, m, p);
    }
  }

  lemma {:induction false} BareIffNone(body: string)
    ensures Bare(body) <==> IndexOf(body, BEGIN).None? && IndexOf(body, END).None?
    ensures Bare(body) <==> Lacks(body, BEGIN) && Lacks(body, END)
  {
    AbsentIffLacks(body, BEGIN);
    AbsentIffLacks(body, END);
  }

  /** An upsert is applied exactly to intact bodies, and leaves any other as it is. */
  lemma {:induction false} AppliedIffIntact(body: string, content: string)
    ensures Upsert(body, content).Applied? <==> IsIntact(body)
    ensures Upsert(body, content).Refused? ==> Upsert(body, content).body == body
  {
    var b, e := IndexOf(body, BEGIN), IndexOf(body, END);
    BareIffNone(body);
    if Upsert(body, content).Applied? && !Bare(body) {
      IndexSpec(body, BEGIN);
      IndexSpec(body, END);
      OnlyByIndexes(body, BEGIN, b.value);
      OnlyByIndexes(body, END, e.value);
      BeginIsNoEnd(body, b.value, e.value);
    }
    if b', e' :| 0 <= b' < e' <= |body| && OnlyAt(body, BEGIN, b') && OnlyAt(body, END, e') {
      OnlyByIndexes(body, BEGIN, b');
      OnlyByIndexes(body, END, e');
    }
  }

  /** A section's end lies behind the whole of its beginning. */
  lemma {:induction false} BeginIsNoEnd(body: string, b: nat, e: nat)
    requires OccursAt(body, BEGIN, b) && OccursAt(body, END, e) && b <= e
    ensures b + |BEGIN| <= e
  {
    if e < b + |BEGIN| {
      OccurrenceChars(body, BEGIN, b, e - b);
      OccurrenceChars(body, END, e, 0);
      OccurrenceChars(body, BEGIN, b, 22);
      OccurrenceChars(body, END, e, 22);
    }
  }

  /** The body is the one text, a section with the only markers, and the other text. */
  predicate IsAround(body: string, before: string, after: string) {
    var b, e := |before|, |body| - |after| - |END|;
    && |before| + |BEGIN| <= e
    && body[..b] == before && body[e + |END|..] == after
    && OnlyAt(body, BEGIN, b) && OnlyAt(body, END, e)
  }

  /** What an applied upsert splices: the text before and behind the section, neither with a marker. */
  lemma {:induction false} AppliedSplices(body: string, content: string) returns (before: string, after: string)
    requires Upsert(body, content).Applied?
    ensures Bare(before) && Bare(after) && Upsert(body, content).body == Spliced(before, content, after)
    ensures Bare(body) ==> before == body + (if AllBlank(body) then "" else "\n\n") && after == ""
    ensures !Bare(body) ==> IsAround(body, before, after)
  {
    BareIffNone(body);
    AbsentIffLacks("", BEGIN);
    AbsentIffLacks("", END);
    if Bare(body) {
      TrimEmptyIff(body);
      assert AllBlank(body) ==> body + "" == body + Separator(body);
      before, after := body + Separator(body), "";
      SeparatorIsBare(body);
    } else {
      var b, e := IndexOf(body, BEGIN).value, IndexOf(body, END).value;
      IndexSpec(body, BEGIN);
      IndexSpec(body, END);
      OnlyByIndexes(body, BEGIN, b);
      OnlyByIndexes(body, END, e);
      BeginIsNoEnd(body, b, e);
      before, after := body[..b], body[e + |END|..];
      OutsideIsBare(body, b, e);
    }
  }

  lemma {:induction false} SeparatorIsBare(body: string)
    requires Bare(body)
    ensures Bare(body + Separator(body))
  {
    MarkersAreMarkers();
    if Separator(body) == "" {
      assert body + Separator(body) == body;
    } else {
      ShorterLacks("\n\n", BEGIN);
      ShorterLacks("\n\n", END);
      IndexInParts(body, "\n\n", BEGIN);
      IndexInParts(body, "\n\n", END);
      BareIffNone(body + "\n\n");
    }
  }

  lemma {:induction false} OccursInPrefix(s: string, m: string, cut: nat, q: nat)
    requires cut <= |s|
    ensures OccursAt(s[..cut], m, q) ==> OccursAt(s, m, q) && q + |m| <= cut
  {
    if q + |m| <= cut {
      assert s[..cut][q..q + |m|] == s[q..q + |m|];
    }
  }

  lemma {:induction false} OccursInSuffix(s: string, m: string, cut: nat, q: nat)
    requires cut <= |s|
    ensures OccursAt(s[cut..], m, q) ==> OccursAt(s, m, cut + q)
  {
    if cut + q + |m| <= |s| {
      assert s[cut..][q..q + |m|] == s[cut + q..cut + q + |m|];
    }
  }

  lemma {:induction false} PrefixLacks(s: string, m: string, p: nat, cut: nat)
    requires m != "" && OnlyAt(s, m, p) && cut <= p
    ensures Absent(s[..cut], m)
  {
    forall q | 0 <= q <= cut
      ensures !OccursAt(s[..cut], m, q)
    {
      OccursInPrefix(s, m, cut, q);
    }
    AbsentIffLacks(s[..cut], m);
  }

  lemma {:induction false} SuffixLacks(s: string, m: string, p: nat, cut: nat)
    requires m != "" && OnlyAt(s, m, p) && p < cut <= |s|
    ensures Absent(s[cut..], m)
  {
    forall q | 0 <= q <= |s| - cut
      ensures !OccursAt(s[cut..], m, q)
    {
      OccursInSuffix(s, m, cut, q);
    }
    AbsentIffLacks(s[cut..], m);
  }

  /** Before its first and behind its last marker an intact body has none. */
  lemma {:induction false} OutsideIsBare(body: string, b: nat, e: nat)
    requires OnlyAt(body, BEGIN, b) && OnlyAt(body, END, e) && b + |BEGIN| <= e
    ensures Bare(body[..b]) && Bare(body[e + |END|..])
  {
    PrefixLacks(body, BEGIN, b, b);
    PrefixLacks(body, END, e, b);
    SuffixLacks(body, BEGIN, b, e + |END|);
    SuffixLacks(body, END, e, e + |END|);
  }

  // ------------------------------------------------------------ reading it back

  /** What lies behind the begin marker of a spliced body. */
  lemma {:induction false} BehindBegin(before: string, t: string, after: string, n: nat)
    requires n <= |t|
    ensures var body, from := before + (BEGIN + FromContent(t, after)), |before| + |BEGIN|;
      && from + |t| + 2 <= |body|
      && body[from..from + 1 + n] == "\n" + t[..n]
      && body[from..from + |t| + 2] == "\n" + t + "\n"
  {
    var body := before + (BEGIN + FromContent(t, after));
    assert body == (before + BEGIN) + ("\n" + t + "\n" + (END + after));
  }

  lemma {:induction false} ReadBetween(body: string, b: nat, e: nat)
    requires IndexOf(body, BEGIN) == Some(b) && IndexOf(body, END) == Some(e) && b + |BEGIN| <= e <= |body|
    ensures Read(body) == Some(Trim(body[b + |BEGIN|..e]))
  {
  }

  /** How much of the content is in front of the first end marker. */
  function Readable(t: string): string {
    if IndexOf(t, END).Some? then t[..IndexOf(t, END).value] else t + "\n"
  }

  lemma {:induction false} ReadableIsThere(before: string, t: string, after: string)
    ensures var body, from, e := before + (BEGIN + FromContent(t, after)), |before| + |BEGIN|, 1 + |Readable(t)|;
      from + e <= |body| && body[from..from + e] == "\n" + Readable(t)
  {
    BehindBegin(before, t, after, if IndexOf(t, END).Some? then IndexOf(t, END).value else 0);
    assert "\n" + (t + "\n") == "\n" + t + "\n";
  }

  lemma {:induction false} ReadsContent(body: string, before: string, t: string, after: string)
    requires body == before + (BEGIN + FromContent(t, after)) && IndexOf(body, BEGIN) == Some(|before|)
    requires IndexOf(body, END) == Some(|before| + |BEGIN| + 1 + |Readable(t)|)
    ensures Read(body) == Some(Trim("\n" + Readable(t)))
  {
    ReadableIsThere(before, t, after);
    ReadBetween(body, |before|, |before| + |BEGIN| + 1 + |Readable(t)|);
  }

  lemma {:induction false} ReadSpliced(before: string, content: string, after: string)
    requires Bare(before) && Bare(after)
    ensures Read(Spliced(before, content, after)) == Some(Trim("\n" + Readable(Trim(content))))
  {
    EndInSpliced(before, content, after);
    BeginInSpliced(before, content, after);
    SplicedParts(before, content, after);
    ReadsContent(Spliced(before, content, after), before, Trim(content), after);
  }

  /** What was written is read back exactly if the content, trimmed, has no end marker of its own. */
  lemma {:induction false} ReadBackIffNoEndMarker(body: string, content: string)
    requires Upsert(body, content).Applied?
    ensures Read(Upsert(body, content).body) == Some(Trim(content)) <==> Lacks(Trim(content), END)
  {
    var before, after := AppliedSplices(body, content);
    var t := Trim(content);
    ReadSpliced(before, content, after);
    AbsentIffLacks(t, END);
    if IndexOf(t, END).Some? {
      ShorterTrimmed(t, IndexOf(t, END).value);
    } else {
      TrimInner(t);
      assert "\n" + (t + "\n") == "\n" + t + "\n";
    }
  }

  lemma {:induction false} ShorterTrimmed(t: string, n: nat)
    requires n < |t|
    ensures Trim("\n" + t[..n]) != t
  {
    var s := "\n" + t[..n];
    assert s[1..] == t[..n];
    assert |TrimStart(s)| <= n;
  }

  // ------------------------------------------------------------ writing it again

  lemma {:induction false} UpsertBetween(body: string, b: nat, e: nat, content: string)
    requires IndexOf(body, BEGIN) == Some(b) && IndexOf(body, END) == Some(e) && b < e
    ensures Upsert(body, content) ==
      if LastIndexOf(body, BEGIN) == Some(b) && LastIndexOf(body, END) == Some(e)
      then Applied(body[..b] + Section(content) + body[e + |END|..])
      else Refused(body, Duplicated)
  {
  }

  lemma {:induction false} AroundSpliced(before: string, content: string, after: string)
    ensures var body, e := Spliced(before, content, after), |before| + |BEGIN| + 1 + |Trim(content)| + 1;
      && e + |END| <= |body| && body[..|before|] == before && body[e + |END|..] == after
  {
  }

  /** A second upsert is applied exactly if the first one's content brought no marker along. */
  lemma {:induction false} SplicedAgain(before: string, content: string, after: string, other: string)
    requires Bare(before) && Bare(after)
    ensures Upsert(Spliced(before, content, after), other) ==
      if Bare(Trim(content)) then Applied(Spliced(before, other, after))
      else Refused(Spliced(before, content, after), Duplicated)
  {
    var t := Trim(content);
    EndInSpliced(before, content, after);
    BeginInSpliced(before, content, after);
    BareIffNone(t);
    AbsentIffLacks(t, BEGIN);
    AroundSpliced(before, content, after);
    UpsertBetween(Spliced(before, content, after), |before|,
                  |before| + |BEGIN| + 1 + (if IndexOf(t, END).Some? then IndexOf(t, END).value else |t| + 1), other);
  }

  /**
   * After an applied upsert another one is applied exactly if the content, trimmed, has neither
   * marker; it then replaces the content and nothing else, and repeating the first changes nothing.
   */
  lemma {:induction false} UpsertAgainIffNoMarker(body: string, content: string, other: string)
    requires Upsert(body, content).Applied?
    ensures var first := Upsert(body, content).body;
      && (Upsert(first, other).Applied? <==> Lacks(Trim(content), BEGIN) && Lacks(Trim(content), END))
      && (Upsert(first, content).Applied? ==> Upsert(first, content).body == first)
      && (Upsert(first, other).Applied? && !Bare(body) ==> Upsert(first, other) == Upsert(body, other))
  {
    var before, after := AppliedSplices(body, content);
    SplicedAgain(before, content, after, other);
    SplicedAgain(before, content, after, content);
    BareIffNone(Trim(content));
    if !Bare(body) {
      SameSplice(body, content, other, before, after);
    }
  }

  lemma {:induction false} SameSplice(body: string, content: string, other: string, before: string, after: string)
    requires Upsert(body, content).Applied? && IsAround(body, before, after)
    ensures Upsert(body, other) == Applied(Spliced(before, other, after))
  {
    OnlyByIndexes(body, BEGIN, |before|);
    OnlyByIndexes(body, END, |body| - |after| - |END|);
  }
}

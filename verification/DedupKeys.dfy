/** The grammar of dedup keys, and that it has no collisions. */
module DedupKeys {
  import opened Activity

  // ---- Text ----

  function Digit(d: nat): char
    requires d < 10
  {
    ['0', '1', '2', '3', '4', '5', '6', '7', '8', '9'][d]
  }

  /** %d of a number that is not negative. */
  function Decimal(n: nat): string {
    if n < 10 then [Digit(n)] else Decimal(n / 10) + [Digit(n % 10)]
  }

  predicate Plain(s: string) {
    ':' !in s
  }

  lemma {:induction false} DecimalIsPlain(n: nat)
    ensures Plain(Decimal(n)) && |Decimal(n)| > 0 && forall c :: c in Decimal(n) ==> '0' <= c <= '9'
  {
    if n >= 10 { DecimalIsPlain(n / 10); }
  }

  /** A number can be read back from its digits. */
  lemma {:induction false} DecimalIsInjective(m: nat, n: nat)
    requires Decimal(m) == Decimal(n)
    ensures m == n
  {
    LastDigit(m);
    LastDigit(n);
    hide Decimal;
    if m >= 10 && n >= 10 {
      DecimalIsInjective(m / 10, n / 10);
    } else {
      DecimalIsPlain(m / 10);
      DecimalIsPlain(n / 10);
    }
    DigitsDiffer(m % 10, n % 10);
  }

  lemma LastDigit(n: nat)
    ensures
      var s := Decimal(n);
      && |s| > 0 && s[|s| - 1] == Digit(n % 10)
      && s[..|s| - 1] == if n < 10 then "" else Decimal(n / 10)
  {
  }

  lemma DigitsDiffer(a: nat, b: nat)
    requires a < 10 && b < 10
    ensures Digit(a) == Digit(b) ==> a == b
  {
  }

  /** The parts of a key, with colons in between. */
  function Join(parts: seq<string>): string
    requires |parts| > 0
  {
    if |parts| == 1 then parts[0] else parts[0] + ":" + Join(parts[1..])
  }

  lemma ColonSplits(a: string, b: string, x: string, y: string)
    requires Plain(a) && Plain(b) && a + ":" + x == b + ":" + y
    ensures a == b && x == y
  {
    var s, t := a + ":" + x, b + ":" + y;
    assert s[|a|] == ':' && t[|b|] == ':';
    assert forall i :: 0 <= i < |a| ==> s[i] == a[i] && a[i] != ':';
    assert forall i :: 0 <= i < |b| ==> t[i] == b[i] && b[i] != ':';
    assert a == s[..|a|] && b == t[..|b|];
    assert x == s[|a| + 1..] && y == t[|b| + 1..];
  }

  predicate AllPlain(parts: seq<string>) {
    forall i :: 0 <= i < |parts| ==> Plain(parts[i])
  }

  /** Only the last part may hold a colon. */
  predicate PlainBeforeLast(parts: seq<string>) {
    forall i :: 0 <= i < |parts| - 1 ==> Plain(parts[i])
  }

  lemma {:induction false} JoinIsPlain(parts: seq<string>)
    requires |parts| > 1
    ensures !Plain(Join(parts))
  {
    var s := Join(parts);
    assert s[|parts[0]|] == ':';
  }

  /** The parts can be read back, as long as a last part holding colons is not taken for more of them. */
  lemma {:induction false} JoinIsInjective(p: seq<string>, q: seq<string>)
    requires |p| > 0 && |q| > 0 && Join(p) == Join(q)
    requires (PlainBeforeLast(p) && PlainBeforeLast(q) && |p| == |q|) || (AllPlain(p) && AllPlain(q))
    ensures p == q
  {
    if |p| == 1 || |q| == 1 {
      if |p| > 1 { JoinIsPlain(p); }
      if |q| > 1 { JoinIsPlain(q); }
    } else {
      ColonSplits(p[0], q[0], Join(p[1..]), Join(q[1..]));
      JoinIsInjective(p[1..], q[1..]);
      assert p == [p[0]] + p[1..] && q == [q[0]] + q[1..];
    }
  }

  lemma HeadIsRead(p: seq<string>, q: seq<string>)
    requires |p| > 1 && |q| > 1 && Plain(p[0]) && Plain(q[0]) && Join(p) == Join(q)
    ensures p[0] == q[0]
  {
    ColonSplits(p[0], q[0], Join(p[1..]), Join(q[1..]));
  }

  // ---- Keys ----

  /** What each activity's key is built from. */
  datatype Key =
    | PushKey(project: nat, ref: string, after: string, kind: Kind)
    | TagPushKey(project: nat, ref: string, after: string, kind: Kind)
    | MergeRequestKey(id: nat, action: string)
    | ApprovalKey(id: nat, approver: nat)
    | IssueKey(id: nat, action: string)
    | NoteKey(id: nat)
    | ReviewKey(id: nat)
    | DiscussionKey(discussion: string)
    | DiscussionNoteKey(id: nat)
    | PipelineKey(id: nat, kind: Kind)
    | JobKey(id: nat)
    | DeploymentKey(id: nat, kind: Kind)
    | EmojiKey(id: nat)
    | ReleaseKey(project: nat, tag: string)
    | WikiPageKey(path: string, slug: string)

  function Parts(key: Key): (parts: seq<string>)
    ensures |parts| > 1
  {
    match key
    case PushKey(project, ref, after, kind) => ["push", Decimal(project), ref, after, KindName(kind)]
    case TagPushKey(project, ref, after, kind) => ["tag_push", Decimal(project), ref, after, KindName(kind)]
    case MergeRequestKey(id, action) => ["merge_request", Decimal(id), action]
    case ApprovalKey(id, approver) => ["merge_request", Decimal(id), "approved", Decimal(approver)]
    case IssueKey(id, action) => ["issue", Decimal(id), action]
    case NoteKey(id) => ["note", Decimal(id)]
    case ReviewKey(id) => ["note", Decimal(id), "review_comment"]
    case DiscussionKey(discussion) => ["discussion", discussion, "resolved"]
    case DiscussionNoteKey(id) => ["discussion", "note", Decimal(id), "resolved"]
    case PipelineKey(id, kind) => ["pipeline", Decimal(id), KindName(kind)]
    case JobKey(id) => ["job", Decimal(id)]
    case DeploymentKey(id, kind) => ["deployment", Decimal(id), KindName(kind)]
    case EmojiKey(id) => ["emoji", Decimal(id)]
    case ReleaseKey(project, tag) => ["release", Decimal(project), tag]
    case WikiPageKey(path, slug) => ["wiki_page", path, slug]
  }

  function Render(key: Key): string {
    Join(Parts(key))
  }

  /** Refs, paths, commits and discussion IDs hold no colon; a tag or a slug may, as it comes last. */
  predicate Sound(key: Key) {
    match key
    case PushKey(_, ref, after, _) => Plain(ref) && Plain(after)
    case TagPushKey(_, ref, after, _) => Plain(ref) && Plain(after)
    case MergeRequestKey(_, action) => Plain(action)
    case IssueKey(_, action) => Plain(action)
    case DiscussionKey(discussion) => Plain(discussion)
    case WikiPageKey(path, _) => Plain(path)
    case _ => true
  }

  predicate HasLongName(kind: Kind) {
    kind.MergeRequestOpened? || kind.MergeRequestMerged? || kind.MergeRequestApproved? || kind.MergeRequestMergedFast?
    || kind.MergeRequestLanded? || kind.MergeRequestClosed? || kind.DiscussionResolved? || kind.ReleasePublished?
    || kind.DeploymentSucceeded? || kind.PipelineSucceeded?
  }

  lemma LongKindNamesArePlain(kind: Kind)
    requires HasLongName(kind)
    ensures Plain(KindName(kind))
  {
  }

  lemma ShortKindNamesArePlain(kind: Kind)
    requires !HasLongName(kind)
    ensures Plain(KindName(kind))
  {
  }

  lemma KindNamesArePlain(kind: Kind)
    ensures Plain(KindName(kind))
  {
    hide Plain, KindName;
    if HasLongName(kind) { LongKindNamesArePlain(kind); } else { ShortKindNamesArePlain(kind); }
  }

  lemma KindNamesDiffer(a: Kind, b: Kind)
    requires KindName(a) == KindName(b)
    ensures a == b
  {
  }

  predicate Rest(key: Key) {
    key.ReleaseKey? || key.WikiPageKey?
  }

  lemma PartsArePlain(key: Key)
    requires Sound(key)
    ensures PlainBeforeLast(Parts(key)) && (!Rest(key) ==> AllPlain(Parts(key)))
  {
    forall n: nat { DecimalIsPlain(n); }
    forall kind { KindNamesArePlain(kind); }
    var parts := Parts(key);
    forall i | 0 <= i < |parts| - 1 ensures Plain(parts[i]) { }
  }

  lemma PartsAreInjective(a: Key, b: Key)
    requires Parts(a) == Parts(b)
    ensures a == b
  {
    forall m: nat, n: nat | Decimal(m) == Decimal(n) ensures m == n { DecimalIsInjective(m, n); }
    forall k, l | KindName(k) == KindName(l) ensures k == l { KindNamesDiffer(k, l); }
    var p, q := Parts(a), Parts(b);
    assert |p| == |q| && p[0] == q[0] && p[1] == q[1];
    assert |p| > 2 ==> p[2] == q[2];
    assert |p| > 3 ==> p[3] == q[3];
    assert |p| > 4 ==> p[4] == q[4];
  }

  /** Two keys spelled alike are the same key: of the same kind, with the same identifiers. */
  lemma KeysDoNotCollide(a: Key, b: Key)
    requires Sound(a) && Sound(b) && Render(a) == Render(b)
    ensures a == b
  {
    hide Join, Plain, Sound, Decimal, KindName;
    PartsArePlain(a);
    PartsArePlain(b);
    HeadIsRead(Parts(a), Parts(b));
    JoinIsInjective(Parts(a), Parts(b));
    PartsAreInjective(a, b);
  }

  /** What keeps colons out of refs is what keeps keys apart: with them, two pushes may share a key. */
  lemma ColonsCollide(project: nat, kind: Kind)
    ensures
      var a, b := PushKey(project, "a:b", "c", kind), PushKey(project, "a", "b:c", kind);
      a != b && Render(a) == Render(b)
  {
    hide Decimal, KindName;
    var d, n := Decimal(project), KindName(kind);
    assert Join([n]) == n;
    assert ["c", n][1..] == [n] && ["b:c", n][1..] == [n];
    assert ["a:b", "c", n][1..] == ["c", n] && ["a", "b:c", n][1..] == ["b:c", n];
    assert [d, "a:b", "c", n][1..] == ["a:b", "c", n] && [d, "a", "b:c", n][1..] == ["a", "b:c", n];
    assert ["push", d, "a:b", "c", n][1..] == [d, "a:b", "c", n] && ["push", d, "a", "b:c", n][1..] == [d, "a", "b:c", n];
    assert Join(["c", n]) == "c" + ":" + Join([n]) && Join(["b:c", n]) == "b:c" + ":" + Join([n]);
    var x, y := Join(["a:b", "c", n]), Join(["a", "b:c", n]);
    assert x == "a:b" + ":" + ("c" + ":" + n) && y == "a" + ":" + ("b:c" + ":" + n);
    assert x == y;
    assert Join([d, "a:b", "c", n]) == d + ":" + x && Join([d, "a", "b:c", n]) == d + ":" + y;
    assert Join(["push", d, "a:b", "c", n]) == "push" + ":" + Join([d, "a:b", "c", n]);
    assert Join(["push", d, "a", "b:c", n]) == "push" + ":" + Join([d, "a", "b:c", n]);
  }
}

/** Choosing free slugs: uniqueClientSlug and nextProjectSlug of srv/slugs.go. */
module SlugPickers {
  import opened Options
  import opened Numerals
  import opened SlugAliases

  const BOOK := "book-"
  const MAX_CLIENT_TRIES := 1000
  const MAX_PROJECT_TRIES := 1000

  /** Slugs a new client may not take: live ones, and any old client slug in the alias table. */
  predicate ClientSlugTaken(s: Tables, slug: Slug) {
    LiveClient(s, slug) || exists k :: k in s.aliases && k.client == slug
  }

  /** base, base2, base3, ... */
  function ClientCandidate(base: Slug, i: nat): Slug
    requires i >= 1
  {
    if i > 1 then base + Print(i, 10) else base
  }

  /** The first free candidate among the 999 the loop tries, or nothing when all are taken. */
  method UniqueClientSlug(s: Tables, base: Slug) returns (slug: Option<Slug>)
    requires base != ""
    ensures slug.Some? ==>
      exists i :: 1 <= i < 1000 && slug.value == ClientCandidate(base, i)
        && forall j :: 1 <= j < i ==> ClientSlugTaken(s, ClientCandidate(base, j))
    ensures slug.Some? ==> slug.value != "" && !ClientSlugTaken(s, slug.value)
    ensures slug.None? ==> forall j :: 1 <= j < 1000 ==> ClientSlugTaken(s, ClientCandidate(base, j))
  {
    var i := 1;
    while i < MAX_CLIENT_TRIES
      invariant 1 <= i <= MAX_CLIENT_TRIES
      invariant forall j :: 1 <= j < i ==> ClientSlugTaken(s, ClientCandidate(base, j))
    {
      var candidate := base;
      if i > 1 {
        candidate := base + Print(i, 10);
      }
      assert candidate == ClientCandidate(base, i);
      if !ClientSlugTaken(s, candidate) {
        return Some(candidate);
      }
      i := i + 1;
    }
    return None;
  }

  /** `^book-(\d{3,})$`: the sequence number in a project slug. */
  function SequenceNumber(slug: Slug): Option<nat> {
    if BOOK <= slug && |slug| - |BOOK| >= 3 && IsNumeral(slug[|BOOK|..], 10)
    then Some(Value(slug[|BOOK|..], 10)) else None
  }

  /** book-%03d */
  function BookSlug(n: nat): Slug {
    BOOK + Padded(Print(n, 10), 3)
  }

  lemma BookSlugRoundTrip(n: nat)
    ensures SequenceNumber(BookSlug(n)) == Some(n)
  {
    PaddedValue(Print(n, 10), 3, 10);
    assert BookSlug(n)[|BOOK|..] == Padded(Print(n, 10), 3);
  }

  /** Every project slug this client has used: its projects', and those of its old addresses. */
  function UsedSlugs(s: Tables, client: Slug): set<Slug> {
    (set id | id in s.projects && s.projects[id].client == client :: s.projects[id].project)
    + (set k | k in s.aliases && k.client == client :: k.project)
  }

  predicate Exceeds(slug: Slug, n: nat) {
    SequenceNumber(slug).Some? && SequenceNumber(slug).value > n
  }

  /** n is the largest sequence number among these slugs, or 0 when none has one. */
  ghost predicate IsHighest(slugs: set<Slug>, n: nat) {
    && (forall u :: u in slugs ==> !Exceeds(u, n))
    && (n == 0 || exists u :: u in slugs && SequenceNumber(u) == Some(n))
  }

  /** A slug that is no book number, or an earlier one. */
  predicate Below(slug: Slug, made: Slug) {
    SequenceNumber(slug).Some? ==>
      SequenceNumber(made).Some? && SequenceNumber(slug).value < SequenceNumber(made).value
  }

  lemma UsedIsBelow(s: Tables, client: Slug, n: nat)
    requires IsHighest(UsedSlugs(s, client), n)
    ensures forall id :: id in s.projects && s.projects[id].client == client ==>
      Below(s.projects[id].project, BookSlug(n + 1))
    ensures forall k :: k in s.aliases && k.client == client ==> Below(k.project, BookSlug(n + 1))
  {
    BookSlugRoundTrip(n + 1);
    forall id | id in s.projects && s.projects[id].client == client
      ensures Below(s.projects[id].project, BookSlug(n + 1))
    {
      assert s.projects[id].project in UsedSlugs(s, client) && !Exceeds(s.projects[id].project, n);
    }
    forall k | k in s.aliases && k.client == client ensures Below(k.project, BookSlug(n + 1)) {
      assert k.project in UsedSlugs(s, client) && !Exceeds(k.project, n);
    }
  }

  method HighestSequence(used: set<Slug>) returns (maxN: nat)
    ensures IsHighest(used, maxN)
  {
    var rows := used;
    maxN := 0;
    while rows != {}
      invariant rows <= used
      invariant IsHighest(used - rows, maxN)
      decreases |rows|
    {
      var row :| row in rows;
      assert used - (rows - {row}) == used - rows + {row};
      rows := rows - {row};
      var m := SequenceNumber(row);
      if m.Some? && m.value > maxN {
        maxN := m.value;
      }
    }
    assert used - rows == used;
  }

  /** One past the highest number ever used under this client, by a project or by an old
      address: numbers are never reused, and the retry loop in the source never needs a
      second turn. */
  method NextProjectSlug(s: Tables, client: Slug) returns (slug: Option<Slug>)
    ensures slug.Some? && slug.value !in UsedSlugs(s, client) && slug.value != ""
    ensures exists n: nat :: IsHighest(UsedSlugs(s, client), n) && slug == Some(BookSlug(n + 1))
    ensures forall id :: id in s.projects && s.projects[id].client == client ==>
      Below(s.projects[id].project, slug.value)
    ensures forall k :: k in s.aliases && k.client == client ==> Below(k.project, slug.value)
    ensures UsedSlugs(s, client) == {} ==> slug == Some(BookSlug(1))
  {
    var maxN := HighestSequence(UsedSlugs(s, client));
    var i := maxN + 1;
    while i < maxN + MAX_PROJECT_TRIES
      invariant maxN < i
      invariant i == maxN + 1 || LiveProject(s, Path(client, BookSlug(maxN + 1)))
    {
      var candidate := BookSlug(i);
      if !LiveProject(s, Path(client, candidate)) {
        NextIsFree(s, client, maxN);
        UsedIsBelow(s, client, maxN);
        return Some(candidate);
      }
      i := i + 1;
    }
    NextIsFree(s, client, maxN);
    assert false;
    return None;
  }

  lemma LiveIsUsed(s: Tables, client: Slug, slug: Slug)
    ensures LiveProject(s, Path(client, slug)) ==> slug in UsedSlugs(s, client)
  {
    if LiveProject(s, Path(client, slug)) {
      var id :| id in s.projects && s.projects[id] == Path(client, slug);
      assert s.projects[id].project in UsedSlugs(s, client);
    }
  }

  lemma NextIsFree(s: Tables, client: Slug, n: nat)
    requires IsHighest(UsedSlugs(s, client), n)
    ensures SequenceNumber(BookSlug(n + 1)) == Some(n + 1)
    ensures BookSlug(n + 1) !in UsedSlugs(s, client)
    ensures !LiveProject(s, Path(client, BookSlug(n + 1)))
  {
    BookSlugRoundTrip(n + 1);
    LiveIsUsed(s, client, BookSlug(n + 1));
    assert BookSlug(n + 1) in UsedSlugs(s, client) ==> Exceeds(BookSlug(n + 1), n);
  }

  // ---- How slugs are spelled ----

  /** The i-th candidate is the base with the decimal numeral of i, from the second on. */
  lemma CandidateIsNumbered(base: Slug, i: nat)
    requires i >= 1
    ensures i == 1 ==> ClientCandidate(base, i) == base
    ensures i > 1 ==>
      && base < ClientCandidate(base, i)
      && var digits := ClientCandidate(base, i)[|base|..];
        (forall k :: 0 <= k < |digits| ==> '0' <= digits[k] <= '9') && digits[0] != '0' && Decimal(digits) == i
  {
    if i > 1 {
      assert ClientCandidate(base, i)[|base|..] == Print(i, 10);
      DecimalIsValue(Print(i, 10));
    }
  }

  /** Book number n is "book-" and at least three digits that read as n. */
  lemma BookSlugIsNumbered(n: nat)
    ensures "book-" < BookSlug(n) && |BookSlug(n)| >= 8
    ensures var digits := BookSlug(n)[5..];
      (forall k :: 0 <= k < |digits| ==> '0' <= digits[k] <= '9') && Decimal(digits) == n
      && (digits[0] == '0' ==> |digits| == 3)
  {
    PaddedValue(Print(n, 10), 3, 10);
    assert BookSlug(n)[5..] == Padded(Print(n, 10), 3);
    DecimalIsValue(Padded(Print(n, 10), 3));
    PadsToWidth(Print(n, 10), 3);
  }

  /** A slug has a sequence number exactly when it is "book-" and three digits or more. */
  lemma SequenceNumberIsRead(slug: Slug)
    ensures SequenceNumber(slug).Some? <==>
      "book-" <= slug && |slug| >= 8 && forall k :: 5 <= k < |slug| ==> '0' <= slug[k] <= '9'
    ensures SequenceNumber(slug).Some? ==> SequenceNumber(slug).value == Decimal(slug[5..])
  {
    if "book-" <= slug {
      var digits := slug[5..];
      assert forall k :: 0 <= k < |digits| ==> digits[k] == slug[k + 5];
      assert forall k :: 5 <= k < |slug| ==> slug[k] == digits[k - 5];
      if IsNumeral(digits, 10) { DecimalIsValue(digits); }
    }
  }

  /** A decimal numeral, the first digit weighing most. */
  function Decimal(s: string): int {
    if |s| == 0 then 0 else 10 * Decimal(s[..|s| - 1]) + (s[|s| - 1] as int - '0' as int)
  }

  lemma {:induction false} DecimalIsValue(s: string)
    requires IsNumeral(s, 10)
    ensures Decimal(s) == Value(s, 10)
    ensures forall k :: 0 <= k < |s| ==> '0' <= s[k] <= '9'
  {
    if |s| > 0 {
      DecimalIsValue(s[..|s| - 1]);
      assert IsDigit(s[|s| - 1], 10);
    }
  }

  lemma {:induction false} PadsToWidth(s: string, width: nat)
    ensures |s| >= width ==> Padded(s, width) == s
    ensures |s| < width ==> |Padded(s, width)| == width
    decreases width - |s|
  {
    if |s| < width {
      PadsToWidth("0" + s, width);
    }
  }
}

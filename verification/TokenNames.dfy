/** The token names and the places of source credentials, as internal/gitlab/source_repository.go writes them: when two
    names are equal, and when a change of the primary root group moves a secret. */
module TokenNames {
  import opened Documents
  import opened Texts
  import opened RotationModel
  import opened RotationLimits
  import opened FixedPrimary

  const NAME_LIMIT := 128
  const NAME_PREFIX := "ops-deploy-"
  const SOURCE_SUFFIX := "-source-read"
  const DELIVERY_SUFFIX := "-jenkins-read"

  /** The longest keys the platform takes; they hold no white space. */
  predicate ValidProject(project: string) { |project| <= 48 }

  predicate ValidConnection(connection: string) { |connection| <= 63 }

  function Limit(value: string, max: nat): string {
    if |value| > max then value[..max] else value
  }

  predicate HexDigit(c: char) { '0' <= c <= '9' || 'a' <= c <= 'f' }

  predicate IsDigest(digest: string) { |digest| == 8 && forall i | 0 <= i < 8 :: HexDigit(digest[i]) }

  function SourceText(head: string, digest: string): string { NAME_PREFIX + head + "-" + digest + SOURCE_SUFFIX }

  function DeliveryText(head: string): string { NAME_PREFIX + head + DELIVERY_SUFFIX }

  /** The name of a source token; `digest` is the eight-digit digest of the root group. */
  function SourceName(project: string, connection: string, digest: string): string {
    Limit(SourceText(project + "-" + connection, digest), NAME_LIMIT)
  }

  function DeliveryName(project: string, connection: string): string {
    Limit(DeliveryText(project + "-" + connection), NAME_LIMIT)
  }

  /** The names are these texts, cut after 128 characters. */
  lemma NamesAre(project: string, connection: string, digest: string)
    ensures var text, name := "ops-deploy-" + project + "-" + connection + "-" + digest + "-source-read", SourceName(project, connection, digest);
      name <= text && |name| == if |text| < 128 then |text| else 128
    ensures var text, name := "ops-deploy-" + project + "-" + connection + "-jenkins-read", DeliveryName(project, connection);
      name <= text && |name| == if |text| < 128 then |text| else 128
  {
    var head := project + "-" + connection;
    assert NAME_PREFIX + head == "ops-deploy-" + project + "-" + connection;
    assert NAME_PREFIX + head + "-" + digest == "ops-deploy-" + project + "-" + connection + "-" + digest;
  }

  // ---------------------------------------------------------------- the characters of a name

  lemma SourceChars(head: string, digest: string)
    requires |digest| == 8
    ensures var s := SourceText(head, digest);
      && |s| == 32 + |head|
      && (forall i | 0 <= i < 11 :: s[i] == NAME_PREFIX[i])
      && (forall i | 11 <= i < 11 + |head| :: s[i] == head[i - 11])
      && s[11 + |head|] == '-'
      && (forall i | 12 + |head| <= i < 20 + |head| :: s[i] == digest[i - 12 - |head|])
      && (forall i | 20 + |head| <= i < 32 + |head| :: s[i] == SOURCE_SUFFIX[i - 20 - |head|])
  {
    var s := SourceText(head, digest);
    assert s == NAME_PREFIX + (head + ("-" + (digest + SOURCE_SUFFIX)));
  }

  lemma DeliveryChars(head: string)
    ensures var s := DeliveryText(head);
      && |s| == 24 + |head|
      && (forall i | 0 <= i < 11 :: s[i] == NAME_PREFIX[i])
      && (forall i | 11 <= i < 11 + |head| :: s[i] == head[i - 11])
      && (forall i | 11 + |head| <= i < 24 + |head| :: s[i] == DELIVERY_SUFFIX[i - 11 - |head|])
  {
  }

  /** How many characters of the digest are left of a name whose project and connection make up `head`. */
  function KeptDigits(head: string): nat {
    if |head| <= 108 then 8 else if |head| <= 116 then 116 - |head| else 0
  }

  /** The dash behind the longer head is visible in both names, and nothing behind the shorter head can stand for it. */
  lemma LongerHeadShows(h1: string, d1: string, h2: string, d2: string)
    requires IsDigest(d1) && IsDigest(d2) && |h1| < |h2| <= 112
    ensures Limit(SourceText(h1, d1), NAME_LIMIT) != Limit(SourceText(h2, d2), NAME_LIMIT)
  {
    SourceChars(h1, d1);
    SourceChars(h2, d2);
    var n1, n2 := Limit(SourceText(h1, d1), NAME_LIMIT), Limit(SourceText(h2, d2), NAME_LIMIT);
    if |n1| == |n2| {
      var k, p := |h2| - |h1|, 11 + |h2|;
      assert n2[p] == '-' && n2[p + 1] == d2[0] && HexDigit(d2[0]);
      if k <= 8 {
        assert n1[p] == d1[k - 1] && HexDigit(d1[k - 1]);
      } else {
        assert n1[p] == SOURCE_SUFFIX[k - 9] && n1[p + 1] == SOURCE_SUFFIX[k - 8];
        assert n1[p] != '-' || n1[p + 1] in {'s', 'r'};
      }
    }
  }

  /** Source names of any two connections, of one project or of two, are equal exactly if project and connection join
      to the same text and the digest characters that are left of the names agree. */
  lemma SourceNamesCollideExactly(p1: string, c1: string, d1: string, p2: string, c2: string, d2: string)
    requires ValidProject(p1) && ValidConnection(c1) && IsDigest(d1)
    requires ValidProject(p2) && ValidConnection(c2) && IsDigest(d2)
    ensures var kept := KeptDigits(p1 + "-" + c1);
      SourceName(p1, c1, d1) == SourceName(p2, c2, d2) <==> p1 + "-" + c1 == p2 + "-" + c2 && d1[..kept] == d2[..kept]
  {
    var h1, h2 := p1 + "-" + c1, p2 + "-" + c2;
    var n1, n2 := SourceName(p1, c1, d1), SourceName(p2, c2, d2);
    SourceChars(h1, d1);
    SourceChars(h2, d2);
    if |h1| < |h2| {
      LongerHeadShows(h1, d1, h2, d2);
    } else if |h2| < |h1| {
      LongerHeadShows(h2, d2, h1, d1);
    } else if n1 == n2 {
      forall i | 0 <= i < |h1| ensures h1[i] == h2[i] {
        assert n1[i + 11] == n2[i + 11];
      }
      forall i | 0 <= i < KeptDigits(h1) ensures d1[i] == d2[i] {
        assert n1[i + 12 + |h1|] == n2[i + 12 + |h2|];
      }
    } else if h1 == h2 {
      var i :| 0 <= i < |n1| && n1[i] != n2[i];
      assert 12 + |h1| <= i < 20 + |h1|;
      assert d1[..KeptDigits(h1)][i - 12 - |h1|] != d2[..KeptDigits(h1)][i - 12 - |h1|];
    }
  }

  lemma LongerDeliveryShows(h1: string, h2: string)
    requires |h1| < |h2| <= 112
    ensures Limit(DeliveryText(h1), NAME_LIMIT) != Limit(DeliveryText(h2), NAME_LIMIT)
  {
    DeliveryChars(h1);
    DeliveryChars(h2);
    var n1, n2 := Limit(DeliveryText(h1), NAME_LIMIT), Limit(DeliveryText(h2), NAME_LIMIT);
    if |n1| == |n2| {
      var k, p := |h2| - |h1|, 11 + |h2|;
      assert n2[p] == '-' && n2[p + 1] == 'j';
      assert n1[p] == DELIVERY_SUFFIX[k] && n1[p + 1] == DELIVERY_SUFFIX[k + 1];
    }
  }

  /** Delivery names are equal exactly if project and connection join to the same text. */
  lemma DeliveryNamesCollideExactly(p1: string, c1: string, p2: string, c2: string)
    requires ValidProject(p1) && ValidConnection(c1) && ValidProject(p2) && ValidConnection(c2)
    ensures DeliveryName(p1, c1) == DeliveryName(p2, c2) <==> p1 + "-" + c1 == p2 + "-" + c2
  {
    var h1, h2 := p1 + "-" + c1, p2 + "-" + c2;
    var n1, n2 := DeliveryName(p1, c1), DeliveryName(p2, c2);
    if |h1| < |h2| {
      LongerDeliveryShows(h1, h2);
    } else if |h2| < |h1| {
      LongerDeliveryShows(h2, h1);
    } else if n1 == n2 {
      DeliveryChars(h1);
      DeliveryChars(h2);
      forall i | 0 <= i < |h1| ensures h1[i] == h2[i] {
        assert n1[i + 11] == n2[i + 11];
      }
    }
  }

  /** A source token and a delivery token never have the same name. */
  lemma SourceIsNotDelivery(p1: string, c1: string, d1: string, p2: string, c2: string)
    requires ValidProject(p1) && ValidConnection(c1) && IsDigest(d1) && ValidProject(p2) && ValidConnection(c2)
    ensures SourceName(p1, c1, d1) != DeliveryName(p2, c2)
  {
    var h1, h2 := p1 + "-" + c1, p2 + "-" + c2;
    var n1, n2 := SourceName(p1, c1, d1), DeliveryName(p2, c2);
    SourceChars(h1, d1);
    DeliveryChars(h2);
    assert HexDigit(d1[0]);
    if |h1| == |h2| {
      assert n2[12 + |h2|] == 'j' && n1[12 + |h1|] == d1[0];
    } else if |h1| < |h2| {
      LongDeliveryShows(h1, d1, h2);
    } else {
      LongSourceShows(h1, d1, h2);
    }
  }

  lemma LongDeliveryShows(h1: string, d1: string, h2: string)
    requires IsDigest(d1) && |h1| < |h2| <= 112
    ensures Limit(SourceText(h1, d1), NAME_LIMIT) != Limit(DeliveryText(h2), NAME_LIMIT)
  {
    SourceChars(h1, d1);
    DeliveryChars(h2);
    var n1, n2 := Limit(SourceText(h1, d1), NAME_LIMIT), Limit(DeliveryText(h2), NAME_LIMIT);
    if |n1| == |n2| {
      var k, p := |h2| - |h1|, 11 + |h2|;
      assert n2[p] == '-' && n2[p + 1] == 'j';
      if k <= 8 {
        assert n1[p] == d1[k - 1] && HexDigit(d1[k - 1]);
      } else {
        assert n1[p] == SOURCE_SUFFIX[k - 9] && n1[p + 1] == SOURCE_SUFFIX[k - 8];
      }
    }
  }

  lemma LongSourceShows(h1: string, d1: string, h2: string)
    requires IsDigest(d1) && |h2| < |h1| <= 112
    ensures Limit(SourceText(h1, d1), NAME_LIMIT) != Limit(DeliveryText(h2), NAME_LIMIT)
  {
    SourceChars(h1, d1);
    DeliveryChars(h2);
    var n1, n2 := Limit(SourceText(h1, d1), NAME_LIMIT), Limit(DeliveryText(h2), NAME_LIMIT);
    if |n1| == |n2| {
      var k, p := |h1| - |h2|, 11 + |h1|;
      assert n1[p] == '-' && n1[p + 1] == d1[0] && HexDigit(d1[0]);
      assert n2[p] == DELIVERY_SUFFIX[k] && n2[p + 1] == DELIVERY_SUFFIX[k + 1];
    }
  }

  /** The dash does not separate: two projects that share a root group can share a token name. */
  lemma DashesCollide(a: string, b: string, c: string, digest: string)
    ensures SourceName(a, b + "-" + c, digest) == SourceName(a + "-" + b, c, digest)
    ensures DeliveryName(a, b + "-" + c) == DeliveryName(a + "-" + b, c)
  {
    assert a + "-" + (b + "-" + c) == (a + "-" + b) + "-" + c;
  }

  /** Within one project the names tell connections apart, and root groups too unless the limit cuts their digests. */
  lemma OneProjectCollidesExactly(project: string, c1: string, d1: string, c2: string, d2: string)
    requires ValidProject(project) && ValidConnection(c1) && IsDigest(d1) && ValidConnection(c2) && IsDigest(d2)
    ensures var kept := KeptDigits(project + "-" + c1);
      SourceName(project, c1, d1) == SourceName(project, c2, d2) <==> c1 == c2 && d1[..kept] == d2[..kept]
    ensures DeliveryName(project, c1) == DeliveryName(project, c2) <==> c1 == c2
  {
    SourceNamesCollideExactly(project, c1, d1, project, c2, d2);
    DeliveryNamesCollideExactly(project, c1, project, c2);
    if project + "-" + c1 == project + "-" + c2 {
      assert c1 == (project + "-" + c1)[|project| + 1..] == (project + "-" + c2)[|project| + 1..] == c2;
    }
  }

  // ---------------------------------------------------------------- where a source secret is kept

  type Digest = string -> string

  function RootId(root: string): string { Lower(TrimSlashes(root)) }

  /** What is appended for a root group that is not the primary one. */
  function RootPart(digest: Digest, root: string, primary: string): string {
    if RootId(root) == RootId(primary) then "" else "-" + digest(RootId(root))
  }

  /** The record key; `keyDigest` shortens a key that is too long. */
  function CredentialKey(digest: Digest, keyDigest: Digest, connection: string, root: string, primary: string): string {
    var key := "gitlab-source-read-" + connection + RootPart(digest, root, primary);
    if |key| <= 63 then key else key[..54] + "-" + keyDigest(key)
  }

  function ExternalId(digest: Digest, project: string, root: string, primary: string): string {
    Limit("ops-" + project + "-source-read" + RootPart(digest, root, primary), NAME_LIMIT)
  }

  /** Group paths are compared without outer slashes and without case; the primary root group has the plain key and the
      plain identifier, every other one its digest behind them. */
  lemma PlacesAre(digest: Digest, keyDigest: Digest, project: string, connection: string, root: string, primary: string)
    requires ValidProject(project) && IsDigest(digest(RootId(root)))
    ensures RootId("/" + root + "/") == RootId(root) && Lower(RootId(root)) == RootId(root)
    ensures var part := if RootId(root) == RootId(primary) then "" else "-" + digest(RootId(root));
      && ExternalId(digest, project, root, primary) == "ops-" + project + "-source-read" + part
      && (|"gitlab-source-read-" + connection + part| <= 63 ==>
            CredentialKey(digest, keyDigest, connection, root, primary) == "gitlab-source-read-" + connection + part)
      && (|"gitlab-source-read-" + connection + part| > 63 ==>
            CredentialKey(digest, keyDigest, connection, root, primary) ==
              ("gitlab-source-read-" + connection + part)[..54] + "-" + keyDigest("gitlab-source-read-" + connection + part))
  {
    assert ("/" + root + "/")[1..] == root + "/" && root + "/" == root + ['/'];
    SlashAtEnd(root);
    var once := RootId(root);
    assert Lower(once) == once;
    assert |"ops-" + project + "-source-read"| <= 64;
  }

  lemma {:induction false} SlashAtEnd(s: string)
    ensures TrimSlashes(s + "/") == TrimSlashes(s)
    decreases |s|
  {
    if s == "" {
      assert TrimSlashes("/") == TrimSlashes(""[0..]) == "";
    } else if s[0] == '/' {
      assert (s + "/")[1..] == s[1..] + "/";
      SlashAtEnd(s[1..]);
    } else {
      assert (s + "/")[..|s|] == s;
    }
  }

  /** A secret moves to another place in Jenkins exactly if its root group becomes, or ceases to be, the primary one. */
  lemma SecretMovesExactly(digest: Digest, project: string, root: string, before: string, after: string)
    requires ValidProject(project) && IsDigest(digest(RootId(root)))
    ensures ExternalId(digest, project, root, before) == ExternalId(digest, project, root, after) <==>
      (RootId(root) == RootId(before) <==> RootId(root) == RootId(after))
  {
    var stem := "ops-" + project + "-source-read";
    assert |stem| <= 64;
    assert |ExternalId(digest, project, root, before)| == |stem| + |RootPart(digest, root, before)|;
    assert |ExternalId(digest, project, root, after)| == |stem| + |RootPart(digest, root, after)|;
  }

  /** Names and places as the platform chooses them; `delivery` gives the place of a delivery credential. */
  function PlatformScheme(digest: Digest, keyDigest: Digest, delivery: Slot -> Place): Scheme {
    Scheme(
      (slot: Slot) => TokenName(RootId(slot.root),
        if slot.delivery then DeliveryName(slot.project, slot.connection)
        else SourceName(slot.project, slot.connection, digest(RootId(slot.root)))),
      (slot: Slot, primary: string) =>
        if slot.delivery then delivery(slot)
        else Place(slot.project, slot.connection, CredentialKey(digest, keyDigest, slot.connection, slot.root, primary),
                   ExternalId(digest, slot.project, slot.root, primary)))
  }

  /** With the platform's own names and places: whenever the primary root group was `root` and becomes another one, the
      next rotation for `root` deletes the token that Jenkins and the store hold for it. */
  lemma ChangedPrimaryRevokes(digest: Digest, keyDigest: Digest, delivery: Slot -> Place, project: string,
                              connection: string, root: string, other: string)
    requires ValidProject(project) && IsDigest(digest(RootId(root))) && RootId(root) != RootId(other)
    ensures var scheme, slot := PlatformScheme(digest, keyDigest, delivery), Slot(project, connection, root, false);
      var used := After(scheme, Begun(scheme, Start(map[project := root]), 0, slot, {}),
                        Installing(0, 1) + [Stop(0)] + [ChangePrimary(project, other)]);
      used.ops == map[] && !Safe(After(scheme, Begun(scheme, used, 1, slot, {1}), Installing(1, 2) + [DeleteOlder(1, 1, true)]))
  {
    var scheme, slot := PlatformScheme(digest, keyDigest, delivery), Slot(project, connection, root, false);
    SecretMovesExactly(digest, project, root, root, other);
    MovedPrimaryIsUnsafe(scheme, slot, root, other);
  }

  // ---------------------------------------------------------------- one project whose primary root group stays

  /** The place of a delivery credential; `environment` is that of the connection. */
  function DeliveryPlace(keyDigest: Digest, environment: string -> string, slot: Slot): Place {
    var key := "gitlab-delivery-read-" + slot.connection + "-" + environment(slot.connection);
    Place(slot.project, slot.connection, if |key| <= 63 then key else key[..54] + "-" + keyDigest(key),
          Limit("ops-" + slot.project + "-" + environment(slot.connection) + "-gitlab-read", NAME_LIMIT))
  }

  /** The slots of one project: one delivery credential a connection, and root groups whose digests differ as far as the
      length limit leaves them in the token names. */
  predicate ProjectSlots(digest: Digest, project: string, slots: set<Slot>) {
    && (forall a | a in slots :: a.project == project && ValidConnection(a.connection) && IsDigest(digest(RootId(a.root))))
    && (forall a, b | a in slots && b in slots && a != b && a.connection == b.connection && a.delivery == b.delivery ::
          !a.delivery && DigestsDiffer(digest, a, b))
  }

  predicate DigestsDiffer(digest: Digest, a: Slot, b: Slot)
    requires IsDigest(digest(RootId(a.root))) && IsDigest(digest(RootId(b.root)))
  {
    var kept := KeptDigits(a.project + "-" + a.connection);
    digest(RootId(a.root))[..kept] != digest(RootId(b.root))[..kept]
  }

  /** The digests of two root groups differ as far as they are left exactly if the names of their tokens differ. */
  lemma DigestsDifferExactly(digest: Digest, a: Slot, b: Slot)
    requires ValidProject(a.project) && ValidConnection(a.connection) && a.project == b.project && a.connection == b.connection
    requires IsDigest(digest(RootId(a.root))) && IsDigest(digest(RootId(b.root)))
    ensures DigestsDiffer(digest, a, b) <==>
      SourceName(a.project, a.connection, digest(RootId(a.root))) != SourceName(b.project, b.connection, digest(RootId(b.root)))
  {
    OneProjectCollidesExactly(a.project, a.connection, digest(RootId(a.root)), b.connection, digest(RootId(b.root)));
  }

  /** Where a delivery credential is kept: by connection and environment in the store, by project and environment in Jenkins. */
  lemma DeliveryPlacesAre(keyDigest: Digest, environment: string -> string, slot: Slot)
    ensures var place, key := DeliveryPlace(keyDigest, environment, slot), "gitlab-delivery-read-" + slot.connection + "-" + environment(slot.connection);
      && place.project == slot.project && place.connection == slot.connection
      && (|key| <= 63 ==> place.key == key)
      && (|key| > 63 ==> place.key == key[..54] + "-" + keyDigest(key))
      && (|slot.project| + |environment(slot.connection)| <= 100 ==>
            place.externalId == "ops-" + slot.project + "-" + environment(slot.connection) + "-gitlab-read")
  {
  }

  lemma NamesDiffer(scheme: Scheme, digest: Digest, keyDigest: Digest, delivery: Slot -> Place, project: string, slots: set<Slot>, a: Slot, b: Slot)
    requires scheme == PlatformScheme(digest, keyDigest, delivery)
    requires ValidProject(project) && ProjectSlots(digest, project, slots) && a in slots && b in slots && a != b
    ensures scheme.name(a) != scheme.name(b)
  {
    var d1, d2 := digest(RootId(a.root)), digest(RootId(b.root));
    OneProjectCollidesExactly(project, a.connection, d1, b.connection, d2);
    SourceIsNotDelivery(project, a.connection, d1, project, b.connection);
    SourceIsNotDelivery(project, b.connection, d2, project, a.connection);
  }

  /** Root groups with different digests are kept at different places, whichever of them is the primary one. */
  lemma SourcePlacesDiffer(digest: Digest, project: string, r1: string, r2: string, primary: string)
    requires ValidProject(project) && IsDigest(digest(RootId(r1))) && IsDigest(digest(RootId(r2)))
    requires digest(RootId(r1)) != digest(RootId(r2))
    ensures ExternalId(digest, project, r1, primary) != ExternalId(digest, project, r2, primary)
  {
    var stem := "ops-" + project + "-source-read";
    assert |stem| <= 64;
    var e1, e2 := ExternalId(digest, project, r1, primary), ExternalId(digest, project, r2, primary);
    assert e1 == stem + RootPart(digest, r1, primary) && e2 == stem + RootPart(digest, r2, primary);
    assert e1[|stem|..] == RootPart(digest, r1, primary) && e2[|stem|..] == RootPart(digest, r2, primary);
    assert ("-" + digest(RootId(r1)))[1..] == digest(RootId(r1)) && ("-" + digest(RootId(r2)))[1..] == digest(RootId(r2));
  }

  lemma SourceAndDeliveryPlacesDiffer(digest: Digest, project: string, root: string, primary: string, environment: string)
    requires ValidProject(project) && IsDigest(digest(RootId(root))) && environment in {"dev", "test", "uat", "prod"}
    ensures ExternalId(digest, project, root, primary) != Limit("ops-" + project + "-" + environment + "-gitlab-read", NAME_LIMIT)
  {
    var stem := "ops-" + project + "-";
    var source := stem + ("source-read" + RootPart(digest, root, primary));
    var delivery := stem + (environment + "-gitlab-read");
    assert ExternalId(digest, project, root, primary) == source;
    assert "ops-" + project + "-" + environment + "-gitlab-read" == delivery && |delivery| <= NAME_LIMIT;
    assert source[|stem|] == 's' && delivery[|stem|] == environment[0];
  }

  lemma PlacesDiffer(scheme: Scheme, digest: Digest, keyDigest: Digest, environment: string -> string, project: string,
                     slots: set<Slot>, primary: string, a: Slot, b: Slot)
    requires scheme == PlatformScheme(digest, keyDigest, (slot: Slot) => DeliveryPlace(keyDigest, environment, slot))
    requires ValidProject(project) && ProjectSlots(digest, project, slots) && a in slots && b in slots && a != b
    requires forall connection :: environment(connection) in {"dev", "test", "uat", "prod"}
    ensures scheme.place(a, primary) != scheme.place(b, primary)
  {
    if a.connection == b.connection {
      if !a.delivery && !b.delivery {
        SourcePlacesDiffer(digest, project, a.root, b.root, primary);
      } else if !a.delivery {
        SourceAndDeliveryPlacesDiffer(digest, project, a.root, primary, environment(b.connection));
      } else if !b.delivery {
        SourceAndDeliveryPlacesDiffer(digest, project, b.root, primary, environment(a.connection));
      }
    }
  }

  /** With the platform's own names and places, in one project whose primary root group stays: one operation a slot at a time
      and saves that are all or nothing are enough for safety, if the digests of its root groups differ as far as they are
      left in the names. */
  lemma PlatformIsSafe(digest: Digest, keyDigest: Digest, environment: string -> string, project: string, primary: Primary,
                       slots: set<Slot>, steps: seq<Step>)
    requires ValidProject(project) && ProjectSlots(digest, project, slots)
    requires forall connection :: environment(connection) in {"dev", "test", "uat", "prod"}
    requires OneAtATimeRun(PlatformScheme(digest, keyDigest, (slot: Slot) => DeliveryPlace(keyDigest, environment, slot)),
                           Start(primary), steps, slots)
    ensures Safe(After(PlatformScheme(digest, keyDigest, (slot: Slot) => DeliveryPlace(keyDigest, environment, slot)),
                       Start(primary), steps))
  {
    var delivery := (slot: Slot) => DeliveryPlace(keyDigest, environment, slot);
    var scheme := PlatformScheme(digest, keyDigest, delivery);
    forall a, b | a in slots && b in slots && a != b
      ensures scheme.name(a) != scheme.name(b) && HomeIn(scheme, primary, a) != HomeIn(scheme, primary, b)
    {
      NamesDiffer(scheme, digest, keyDigest, delivery, project, slots, a, b);
      PlacesDiffer(scheme, digest, keyDigest, environment, project, slots, if project in primary then primary[project] else "", a, b);
    }
    FixedPrimaryIsSafe(scheme, primary, steps, slots);
  }
}

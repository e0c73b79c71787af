/**
  How a machine scope writes and reads the provider ID of its machine: one printer and two
  independent readers, one for the host and one for the instance.
 */
module MachineIDs {
  import opened GoStrings
  import opened ProviderIDs

  /** A microVM is known by the host that runs it and by the uid that host gave it. */
  datatype VMId = VMId(host: string, uid: string)

  /** `SetProviderID`: what is written into the machine spec. */
  function Print(host: string, uid: string): string {
    PROVIDER_PREFIX + host + "/" + uid
  }

  /** `getFailureDomainFromProviderID` */
  function HostOf(providerID: string): string {
    if providerID == "" then "" else Split(RemoveAll(providerID, PROVIDER_PREFIX), '/')[0]
  }

  /** `GetInstanceID` */
  function InstanceOf(providerID: string): string {
    var parsed := NewProviderID(providerID);
    if parsed.Parsed? then parsed.value.id else ""
  }

  // ---------- Reading the instance back ----------

  lemma PrintWellFormed(host: string, uid: string)
    requires uid != ""
    ensures WellFormed(Print(host, uid)) <==>
            uid[|uid| - 1] != '/' && '\n' !in host && '\n' !in uid[..|uid| - 1]
  {
    var s := Print(host, uid);
    assert s == "microvm://" + (host + "/" + uid);
    assert s[7] == ':' && Index(s, ':') == 7;
    assert s[8] == '/' && s[9] == '/';
    assert s[|s| - 1] == uid[|uid| - 1];
    assert s[10..|s| - 1] == host + "/" + uid[..|uid| - 1];
    assert '\n' in s[10..|s| - 1] <==> '\n' in host || '\n' in uid[..|uid| - 1];
  }

  /**
    Exactly when the instance reader undoes the printer: the uid is empty (both sides are then the
    empty string), or it has no slash and no newline stands before its last character or in the host.
   */
  lemma InstanceRoundTrip(host: string, uid: string)
    ensures InstanceOf(Print(host, uid)) == uid <==>
            uid == "" || ('/' !in uid && '\n' !in host && '\n' !in uid[..|uid| - 1])
  {
    var s := Print(host, uid);
    ParsesExactlyWellFormed(s);
    if uid == "" {
      assert s[|s| - 1] == '/';
    } else {
      PrintWellFormed(host, uid);
      if '/' !in uid && WellFormed(s) {
        ParsedSegment(PROVIDER_PREFIX + host, uid);
      }
    }
  }

  // ---------- Reading the host back ----------

  const SCHEME: string := "microvm:"

  /** The prefix begins at the start of `head/tail` only when it ends in `tail`. */
  lemma PrefixStraddles(head: string, tail: string)
    requires '/' !in head
    requires PROVIDER_PREFIX <= head + "/" + tail
    ensures head == SCHEME && tail != "" && tail[0] == '/'
  {
    var s := head + "/" + tail;
    assert forall i :: 0 <= i < 10 ==> s[i] == PROVIDER_PREFIX[i];
    assert s[8] == '/' && s[|head|] == '/';
    assert |head| == 8;
    assert head == s[..8] == SCHEME;
    assert s[9] == '/' && s[9] == tail[0];
  }

  predicate EndsInScheme(host: string) {
    |host| >= |SCHEME| && host[|host| - |SCHEME|..] == SCHEME
  }

  /** The host text and the start of the uid spell the prefix once more. */
  predicate Straddles(host: string, uid: string) {
    EndsInScheme(host) && uid != "" && uid[0] == '/'
  }

  lemma {:induction false} RemoveAllKeepsHead(head: string, tail: string)
    requires '/' !in head && !Straddles(head, tail)
    ensures RemoveAll(head + "/" + tail, PROVIDER_PREFIX) == head + "/" + RemoveAll(tail, PROVIDER_PREFIX)
  {
    var s := head + "/" + tail;
    if PROVIDER_PREFIX <= s {
      PrefixStraddles(head, tail);
    } else if head == "" {
      assert s[1..] == tail;
    } else {
      assert s[1..] == head[1..] + "/" + tail;
      assert EndsInScheme(head[1..]) ==> EndsInScheme(head);
      RemoveAllKeepsHead(head[1..], tail);
      assert s[0] == head[0];
      assert [head[0]] + head[1..] == head;
    }
  }

  lemma RemoveAllJoinsAcross(head: string, tail: string)
    requires '/' !in head && Straddles(head, tail)
    ensures RemoveAll(head + "/" + tail, PROVIDER_PREFIX)
         == head[..|head| - |SCHEME|] + RemoveAll(tail[1..], PROVIDER_PREFIX)
  {
    var n := |head| - |SCHEME|;
    var s, front, back := head + "/" + tail, head[..n], tail[1..];
    assert head == front + SCHEME && tail == "/" + back;
    assert s == front + PROVIDER_PREFIX + back;
    forall k | 0 <= k < n ensures !(PROVIDER_PREFIX <= s[k..]) {
      assert s[k..] == head[k..] + "/" + tail;
      if PROVIDER_PREFIX <= s[k..] { PrefixStraddles(head[k..], tail); }
    }
    RemoveAllFirst(front, PROVIDER_PREFIX, back);
  }

  lemma StripPrefix(host: string, uid: string)
    ensures RemoveAll(Print(host, uid), PROVIDER_PREFIX) == RemoveAll(host + "/" + uid, PROVIDER_PREFIX)
  {
    var s := Print(host, uid);
    assert s == PROVIDER_PREFIX + (host + "/" + uid);
    assert s[|PROVIDER_PREFIX|..] == host + "/" + uid;
  }

  /** What the host reader answers when prefix removal eats into the host. */
  lemma HostAcross(host: string, uid: string)
    requires '/' !in host && Straddles(host, uid)
    ensures HostOf(Print(host, uid))
         == host[..|host| - |SCHEME|] + Split(RemoveAll(uid[1..], PROVIDER_PREFIX), '/')[0]
  {
    StripPrefix(host, uid);
    RemoveAllJoinsAcross(host, uid);
    SplitPrepend(host[..|host| - |SCHEME|], RemoveAll(uid[1..], PROVIDER_PREFIX));
  }

  lemma SplitPrepend(head: string, rest: string)
    requires '/' !in head
    ensures Split(head + rest, '/')[0] == head + Split(rest, '/')[0]
  {
    var i := Index(rest, '/');
    if i == -1 {
      SplitHead(head + rest, "", '/');
      SplitHead(rest, "", '/');
    } else {
      assert rest == rest[..i] + "/" + rest[i + 1..];
      assert head + rest == (head + rest[..i]) + "/" + rest[i + 1..];
      SplitHead(head + rest[..i], rest[i + 1..], '/');
      SplitHead(rest[..i], rest[i + 1..], '/');
    }
  }

  /**
    Exactly when the host reader undoes the printer, for every host and uid, although it removes
    every occurrence of the prefix: the host has no slash, and the end of the host and the start of
    the uid do not spell the prefix again (or what removing it leaves happens to restore the host).
   */
  lemma HostRoundTrip(host: string, uid: string)
    ensures HostOf(Print(host, uid)) == host <==>
            && '/' !in host
            && (Straddles(host, uid) ==> Split(RemoveAll(uid[1..], PROVIDER_PREFIX), '/')[0] == SCHEME)
  {
    if '/' in host {
      assert '/' !in Split(RemoveAll(Print(host, uid), PROVIDER_PREFIX), '/')[0];
    } else if Straddles(host, uid) {
      HostAcross(host, uid);
      assert host == host[..|host| - |SCHEME|] + SCHEME;
    } else {
      StripPrefix(host, uid);
      RemoveAllKeepsHead(host, uid);
      SplitHead(host, RemoveAll(uid, PROVIDER_PREFIX), '/');
    }
  }

  /** A slash-free host that the host reader does not give back. */
  lemma HostRoundTripCanFail()
    ensures HostOf(Print("microvm:", "/x")) == "x"
  {
    var uid: string := "/x";
    assert "microvm:"[0..] == SCHEME;
    HostAcross(SCHEME, uid);
    assert uid[1..] == "x";
    assert RemoveAll("x", PROVIDER_PREFIX) == "x";
    SplitHead("x", "", '/');
  }

  /** What the host reader answers for any text at all: what stands before the first slash, once every
      occurrence of the prefix is dropped. */
  lemma HostOfMeans(providerID: string)
    ensures var host, rest := HostOf(providerID), RemoveAll(providerID, "microvm://");
            '/' !in host && host <= rest && (host == rest || rest[|host|] == '/')
  {
    var rest := RemoveAll(providerID, PROVIDER_PREFIX);
    if providerID != "" {
      assert '/' !in Split(rest, '/')[0];
    }
  }

  /** What the instance reader answers for any text at all: what stands behind the last slash, if the text is
      `provider://.../instance` with the newlines in the right places, and nothing otherwise. */
  lemma InstanceOfMeans(providerID: string)
    ensures var id := InstanceOf(providerID);
            if IsProviderID(providerID)
            then id != "" && '/' !in id && exists front: string :: providerID == front + "/" + id
            else id == ""
  {
    hide WellFormed;
    ParsesExactlyText(providerID);
    ParsesExactlyWellFormed(providerID);
    if NewProviderID(providerID).Parsed? {
      var id := InstanceOf(providerID);
      var front := providerID[..|providerID| - |id| - 1];
      assert providerID == front + "/" + id;
    }
  }

  // ---------- Both readers together ----------

  predicate GoodHost(host: string) {
    '/' !in host && '\n' !in host
  }

  predicate GoodUid(uid: string) {
    uid != "" && '/' !in uid && '\n' !in uid
  }

  predicate Good(id: VMId) {
    GoodHost(id.host) && GoodUid(id.uid)
  }

  /** Both readers undo the printer, so it is injective, and never prints the empty string. */
  lemma RoundTrip(id: VMId)
    requires Good(id)
    ensures HostOf(Print(id.host, id.uid)) == id.host
    ensures InstanceOf(Print(id.host, id.uid)) == id.uid
    ensures Print(id.host, id.uid) != ""
  {
    HostRoundTrip(id.host, id.uid);
    InstanceRoundTrip(id.host, id.uid);
  }

  lemma PrintInjective(a: VMId, b: VMId)
    requires '/' !in a.host && '/' !in b.host && '/' !in a.uid && '/' !in b.uid
    requires Print(a.host, a.uid) == Print(b.host, b.uid)
    ensures a == b
  {
    HostRoundTrip(a.host, a.uid);
    HostRoundTrip(b.host, b.uid);
    var s := Print(a.host, a.uid);
    assert s[|PROVIDER_PREFIX + a.host + "/"|..] == a.uid;
    assert s[|PROVIDER_PREFIX + b.host + "/"|..] == b.uid;
  }

  // ---------- The generic printer ----------

  lemma GeneratedIsPrinted(ids: seq<string>)
    ensures GenerateProviderID(ids) == Print("", Join(ids, '/'))
  {
    hide Join;
    assert PROVIDER_PREFIX + "" == PROVIDER_PREFIX;
  }

  /** The parser recovers the last segment of every generated ID whose segments are newline-free
      and whose last segment is a non-empty, slash-free name. */
  lemma GeneratedIDParses(ids: seq<string>)
    requires ids != [] && ids[|ids| - 1] != "" && '/' !in ids[|ids| - 1]
    requires forall p :: p in ids ==> '\n' !in p
    ensures NewProviderID(GenerateProviderID(ids)).Parsed?
    ensures InstanceOf(GenerateProviderID(ids)) == ids[|ids| - 1]
  {
    hide Join, WellFormed;
    var j, last := Join(ids, '/'), ids[|ids| - 1];
    JoinKeepsOut(ids, '\n');
    JoinEndsWithLast(ids);
    var k :| 0 <= k <= |j| && "/" + j == ("/" + j)[..k] + "/" + last;
    assert |("/" + j)[..k] + "/" + last| == |j| + 1 && |j| >= |last|;
    assert j[|j| - 1] == ("/" + j)[|j|] == last[|last| - 1];
    PrintWellFormed("", j);
    GeneratedIsPrinted(ids);
    var front := PROVIDER_PREFIX + ("/" + j)[..k];
    assert Print("", j) == PROVIDER_PREFIX + ("/" + j) == front + "/" + last;
    ParsedSegment(front, last);
  }

  /** The generic printer is not interchangeable with the machine printer: the host reader finds no
      host in anything it prints. */
  lemma GeneratedIDHasNoHost(ids: seq<string>)
    ensures HostOf(GenerateProviderID(ids)) == ""
  {
    GeneratedIsPrinted(ids);
    HostRoundTrip("", Join(ids, '/'));
  }

  /** With no provider ID there is neither a host nor an instance to read. */
  lemma EmptyIDReadsEmpty()
    ensures HostOf("") == "" && InstanceOf("") == ""
  {
    ParsesExactlyWellFormed("");
  }
}

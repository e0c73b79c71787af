/**
  Provider IDs of the form `<cloudProvider>://<optional>/<segments>/<id>`: the acceptance
  pattern, the parser and the generic printer.
 */
module ProviderIDs {
  import opened GoStrings

  const PROVIDER_PREFIX: string := "microvm://"

  // ---------- The acceptance pattern ----------

  /** Character classes of the pattern. The dot does not match a newline; negated classes do. */
  datatype Class = Is(c: char) | Not(c: char)
  {
    predicate Has(x: char) {
      match this
      case Is(c) => x == c
      case Not(c) => x != c
    }
  }

  const DOT := Not('\n')

  /** One class, one or more characters of a class, or any number of them. */
  datatype Piece = One(k: Class) | AtLeastOne(k: Class) | Many(k: Class)
  {
    predicate Matches(s: string) {
      && (forall i :: 0 <= i < |s| ==> k.Has(s[i]))
      && (One? ==> |s| == 1)
      && (AtLeastOne? ==> |s| >= 1)
    }
  }

  /** A sequence of pieces that has to consume the whole text, as between `^` and `$`. */
  datatype Pattern = End | Then(first: Piece, rest: Pattern)
  {
    /** `s` splits into consecutive stretches, one matched by each piece. */
    predicate Matches(s: string) {
      match this
      case End => s == ""
      case Then(p, rest) => exists k :: 0 <= k <= |s| && p.Matches(s[..k]) && rest.Matches(s[k..])
    }
  }

  /** `^[^:]+://.*[^/]$`, from its end to its beginning */
  const TAIL := Then(Many(DOT), Then(One(Not('/')), End))
  const SLASHES := Then(One(Is('/')), Then(One(Is('/')), TAIL))
  const AFTER_PROVIDER := Then(One(Is(':')), SLASHES)
  const PROVIDER_ID_PATTERN := Then(AtLeastOne(Not(':')), AFTER_PROVIDER)

  /** `providerIDRegex.MatchString`, as a direct test: where the first colon is, what follows it, and
      how the string ends. `PatternIsWellFormed` ties it to the meaning of the pattern. */
  predicate WellFormed(s: string) {
    var c := Index(s, ':');
    && 1 <= c
    && c + 4 <= |s|
    && s[c + 1] == '/' && s[c + 2] == '/'
    && s[|s| - 1] != '/'
    && forall i :: c + 3 <= i < |s| - 1 ==> s[i] != '\n'
  }

  lemma MatchesOne(k: Class, rest: Pattern, s: string)
    ensures Then(One(k), rest).Matches(s) <==> s != "" && k.Has(s[0]) && rest.Matches(s[1..])
  {
    var p := Then(One(k), rest);
    if p.Matches(s) {
      var n :| 0 <= n <= |s| && p.first.Matches(s[..n]) && rest.Matches(s[n..]);
      assert n == 1 && s[..n][0] == s[0];
    }
    if s != "" && k.Has(s[0]) && rest.Matches(s[1..]) {
      assert p.first.Matches(s[..1]);
    }
  }

  /** `.*[^/]$`: non-empty, no newline before the last character, which is not a slash. */
  lemma MatchesTail(s: string)
    ensures TAIL.Matches(s)
            <==> s != "" && s[|s| - 1] != '/' && forall i :: 0 <= i < |s| - 1 ==> s[i] != '\n'
  {
    if TAIL.Matches(s) {
      var n :| 0 <= n <= |s| && TAIL.first.Matches(s[..n]) && TAIL.rest.Matches(s[n..]);
      MatchesOne(Not('/'), End, s[n..]);
      assert s[n..][1..] == "" && n == |s| - 1;
      assert s[n..][0] == s[n];
      assert forall i :: 0 <= i < n ==> DOT.Has(s[..n][i]) && s[..n][i] == s[i];
    }
    if s != "" && s[|s| - 1] != '/' && forall i :: 0 <= i < |s| - 1 ==> s[i] != '\n' {
      var n := |s| - 1;
      MatchesOne(Not('/'), End, s[n..]);
      assert s[n..] == [s[n]] && s[n..][1..] == "";
      assert TAIL.first.Matches(s[..n]) && TAIL.rest.Matches(s[n..]);
    }
  }

  /** `//.*[^/]$` */
  lemma MatchesSlashes(s: string)
    ensures SLASHES.Matches(s)
            <==> (&& |s| >= 3 && s[0] == '/' && s[1] == '/' && s[|s| - 1] != '/'
                  && forall i :: 2 <= i < |s| - 1 ==> s[i] != '\n')
  {
    MatchesOne(Is('/'), SLASHES.rest, s);
    if s != "" {
      MatchesOne(Is('/'), TAIL, s[1..]);
      if |s| > 1 {
        var t := s[2..];
        assert s[1..][1..] == t;
        MatchesTail(t);
        assert forall i :: 2 <= i < |s| ==> s[i] == t[i - 2];
      }
    }
  }

  /** The declarative pattern and the direct test accept the same strings. */
  lemma PatternIsWellFormed(s: string)
    ensures PROVIDER_ID_PATTERN.Matches(s) <==> WellFormed(s)
  {
    var p := PROVIDER_ID_PATTERN;
    if p.Matches(s) {
      var n :| 0 <= n <= |s| && p.first.Matches(s[..n]) && p.rest.Matches(s[n..]);
      AfterProvider(s, n);
      assert forall i :: 0 <= i < n ==> s[..n][i] == s[i];
    }
    if WellFormed(s) {
      var c := Index(s, ':');
      AfterProvider(s, c);
      assert p.first.Matches(s[..c]);
    }
  }

  /** `://.*[^/]$` from position `n` on */
  lemma AfterProvider(s: string, n: nat)
    requires n <= |s|
    ensures AFTER_PROVIDER.Matches(s[n..])
            <==> (&& n + 4 <= |s| && s[n] == ':' && s[n + 1] == '/' && s[n + 2] == '/' && s[|s| - 1] != '/'
                  && forall i :: n + 3 <= i < |s| - 1 ==> s[i] != '\n')
  {
    MatchesOne(Is(':'), SLASHES, s[n..]);
    if n < |s| {
      var t := s[n + 1..];
      assert s[n..][1..] == t;
      MatchesSlashes(t);
      assert forall i :: n + 1 <= i < |s| ==> s[i] == t[i - n - 1];
    }
  }

  // ---------- The parser ----------

  datatype ProviderID = ProviderID(original: string, cloudProvider: string, id: string)
  {
    predicate Validate() {
      cloudProvider != "" && id != ""
    }
  }

  datatype ParseError = EmptyProviderID | InvalidProviderID
  datatype ParseResult = Parsed(value: ProviderID) | Rejected(error: ParseError)

  function NewProviderID(id: string): ParseResult {
    if id == "" then Rejected(EmptyProviderID)
    else if !WellFormed(id) then Rejected(InvalidProviderID)
    else
      var cloudProvider := id[0..Index(id, ':')];
      var instance := id[LastIndex(id, '/') + 1..];
      var res := ProviderID(id, cloudProvider, instance);
      if !res.Validate() then Rejected(InvalidProviderID) else Parsed(res)
  }

  lemma PrefixAt(s: string, c: nat)
    requires c + 3 <= |s| && s[c] == ':' && s[c + 1] == '/' && s[c + 2] == '/'
    ensures s[..c] + "://" <= s
  {
    assert s[..c] + "://" == s[..c + 3];
  }

  lemma SuffixAt(s: string, l: nat)
    requires l < |s| && s[l] == '/'
    requires forall j :: l < j < |s| ==> s[j] != '/'
    ensures '/' !in s[l + 1..] && s == s[..l] + "/" + s[l + 1..]
  {
  }

  /**
    Exact acceptance. A string is parsed if and only if it passes the direct test; the only other
    outcome for a non-empty string is the invalid-form error. What is returned splits the input at
    the first colon and the last slash.
   */
  lemma ParsesExactlyWellFormed(s: string)
    ensures NewProviderID(s).Parsed? <==> WellFormed(s)
    ensures NewProviderID(s) == Rejected(EmptyProviderID) <==> s == ""
    ensures NewProviderID(s).Parsed? ==>
              var p := NewProviderID(s).value;
              && p.original == s && p.Validate()
              && ':' !in p.cloudProvider && p.cloudProvider + "://" <= s
              && '/' !in p.id && |p.id| < |s| && s == s[..|s| - |p.id| - 1] + "/" + p.id
  {
    if WellFormed(s) {
      var c, l := Index(s, ':'), LastIndex(s, '/');
      PrefixAt(s, c);
      SuffixAt(s, l);
      assert |s| - |s[l + 1..]| - 1 == l;
    }
  }

  /** The text is a non-empty provider without a colon, `://`, anything without a newline, and one more
      character that is not a slash. */
  ghost predicate IsProviderID(s: string) {
    exists provider: string, middle: string, last: char ::
      && s == provider + "://" + middle + [last]
      && provider != "" && ':' !in provider && '\n' !in middle && last != '/'
  }

  lemma WellFormedText(s: string)
    requires WellFormed(s)
    ensures IsProviderID(s)
  {
    var c, n := Index(s, ':'), |s| - 1;
    var provider, middle, last := s[..c], s[c + 3..n], s[n];
    assert s == provider + "://" + middle + [last];
    assert ':' !in provider && '\n' !in middle;
  }

  lemma TextWellFormed(provider: string, middle: string, last: char)
    requires provider != "" && ':' !in provider && '\n' !in middle && last != '/'
    ensures WellFormed(provider + "://" + middle + [last])
  {
    var s := provider + "://" + middle + [last];
    assert s[|provider|] == ':' && Index(s, ':') == |provider|;
    assert s[|provider| + 3..|s| - 1] == middle;
  }

  /** The strings that are parsed, told from their text alone. */
  lemma ParsesExactlyText(s: string)
    ensures NewProviderID(s).Parsed? <==> IsProviderID(s)
  {
    hide WellFormed, NewProviderID;
    ParsesExactlyWellFormed(s);
    if WellFormed(s) {
      WellFormedText(s);
    }
    if IsProviderID(s) {
      var provider: string, middle: string, last: char :|
        && s == provider + "://" + middle + [last]
        && provider != "" && ':' !in provider && '\n' !in middle && last != '/';
      TextWellFormed(provider, middle, last);
    }
  }

  /** After the pattern has matched, the validation at the end of the parser cannot fail. */
  lemma ValidateNeverFails(s: string)
    ensures PROVIDER_ID_PATTERN.Matches(s) <==> NewProviderID(s).Parsed?
  {
    PatternIsWellFormed(s);
    ParsesExactlyWellFormed(s);
  }

  /** The identifier of a well-formed string that ends in a slash-free segment is that segment. */
  lemma ParsedSegment(front: string, id: string)
    requires WellFormed(front + "/" + id) && '/' !in id
    ensures NewProviderID(front + "/" + id).Parsed?
    ensures NewProviderID(front + "/" + id).value.id == id
  {
    var s := front + "/" + id;
    ParsesExactlyWellFormed(s);
    assert s[|front| + 1..] == id;
    assert s[|front|] == '/';
  }

  // ---------- The generic printer ----------

  function GenerateProviderID(ids: seq<string>): string {
    PROVIDER_PREFIX + "/" + Join(ids, '/')
  }

  lemma {:induction false} JoinEndsWithLast(ids: seq<string>)
    requires ids != []
    ensures exists k :: 0 <= k <= |Join(ids, '/')|
              && "/" + Join(ids, '/') == ("/" + Join(ids, '/'))[..k] + "/" + ids[|ids| - 1]
  {
    var j := Join(ids, '/');
    var last := ids[|ids| - 1];
    if |ids| == 1 {
      assert "/" + j == ("/" + j)[..0] + "/" + last;
    } else {
      JoinEndsWithLast(ids[1..]);
      var r := Join(ids[1..], '/');
      var k :| 0 <= k <= |r| && "/" + r == ("/" + r)[..k] + "/" + last;
      var n := |ids[0]| + 1 + k;
      assert "/" + j == ("/" + ids[0]) + ("/" + r);
      assert ("/" + j)[..n] == ("/" + ids[0]) + ("/" + r)[..k];
      assert "/" + j == ("/" + j)[..n] + "/" + last;
    }
  }

  lemma {:induction false} JoinKeepsOut(ids: seq<string>, c: char)
    requires c != '/'
    requires forall p :: p in ids ==> c !in p
    ensures c !in Join(ids, '/')
  {
    if |ids| > 1 {
      assert forall p :: p in ids[1..] ==> p in ids;
      JoinKeepsOut(ids[1..], c);
    }
  }
}

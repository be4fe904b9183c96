/** Bounded Kubernetes names: the slug, the hashed truncation shared by every
    derived object name, and the Helm release-name cap.

    Strings are ASCII, so a character is a byte. */
module Naming {

  const RELEASE_NAME_MAX := 53
  const HASH_LEN := 6
  const LABEL_MAX := 63

  predicate Alphanumeric(c: char)
  {
    'a' <= c <= 'z' || '0' <= c <= '9'
  }

  predicate LabelChar(c: char)
  {
    Alphanumeric(c) || c == '-'
  }

  predicate LabelChars(s: string)
  {
    forall i :: 0 <= i < |s| ==> LabelChar(s[i])
  }

  /** A label in the sense of section 2.1 of RFC 1123, as Kubernetes checks it. */
  predicate IsLabel(s: string)
  {
    1 <= |s| <= LABEL_MAX && LabelChars(s) && Alphanumeric(s[0]) && Alphanumeric(s[|s| - 1])
  }

  predicate AllDashes(s: string)
  {
    forall i :: 0 <= i < |s| ==> s[i] == '-'
  }

  function TrimRight(s: string): string
  {
    if s == [] || s[|s| - 1] != '-' then s else TrimRight(s[..|s| - 1])
  }

  function TrimLeft(s: string): string
  {
    if s == [] || s[0] != '-' then s else TrimLeft(s[1..])
  }

  /** Go's `strings.Trim(s, "-")`. */
  function Trim(s: string): string
  {
    TrimRight(TrimLeft(s))
  }

  function ToLower(s: string): (r: string)
    ensures |r| == |s|
  {
    if s == [] then []
    else [if 'A' <= s[0] <= 'Z' then (s[0] as int + 32) as char else s[0]] + ToLower(s[1..])
  }

  /** Drops the rest of a run of separators. */
  function SkipRun(s: string): (r: string)
    ensures |r| <= |s|
    ensures r == [] || Alphanumeric(r[0])
  {
    if s == [] || Alphanumeric(s[0]) then s else SkipRun(s[1..])
  }

  /** Replaces each maximal run of separators by one dash. */
  function CollapseRuns(s: string): string
    decreases |s|
  {
    if s == [] then []
    else if Alphanumeric(s[0]) then [s[0]] + CollapseRuns(s[1..])
    else "-" + CollapseRuns(SkipRun(s[1..]))
  }

  function Slugify(s: string): string
  {
    Trim(CollapseRuns(ToLower(s)))
  }

  /** A slug: label characters, no dash at either end, no two dashes in a row. */
  predicate IsSlug(s: string)
  {
    LabelChars(s)
    && (s != [] ==> Alphanumeric(s[0]) && Alphanumeric(s[|s| - 1]))
    && forall i :: 0 < i < |s| ==> s[i - 1] != '-' || s[i] != '-'
  }

  function Xor(a: nat, b: nat): nat
  {
    if a == 0 && b == 0 then 0 else (a % 2 + b % 2) % 2 + 2 * Xor(a / 2, b / 2)
  }

  const FNV_OFFSET: nat := 2166136261
  const FNV_PRIME: nat := 16777619

  /** FNV-1a over the bytes of `s`, in 32-bit arithmetic. */
  function Fnv32a(s: string, h: nat := FNV_OFFSET): (r: nat)
    requires h < 0x1_0000_0000
    ensures r < 0x1_0000_0000
  {
    if s == [] then h
    else Fnv32a(s[1..], Xor(h, s[0] as int % 256) * FNV_PRIME % 0x1_0000_0000)
  }

  function Digit36(d: nat): (c: char)
    requires d < 36
    ensures Alphanumeric(c)
  {
    if d < 10 then ('0' as int + d) as char else ('a' as int + (d - 10)) as char
  }

  /** Go's `strconv.FormatUint(n, 36)`. */
  function Base36(n: nat): string
  {
    if n < 36 then [Digit36(n)] else Base36(n / 36) + [Digit36(n % 36)]
  }

  function Pow36(k: nat): nat
  {
    if k == 0 then 1 else 36 * Pow36(k - 1)
  }

  lemma {:induction false} Base36Length(n: nat, k: nat)
    requires k >= 1 && n < Pow36(k)
    ensures 1 <= |Base36(n)| <= k
    ensures forall i :: 0 <= i < |Base36(n)| ==> Alphanumeric(Base36(n)[i])
  {
    if n >= 36 {
      assert k > 1 by { assert Pow36(1) == 36 * Pow36(0); }
      Base36Length(n / 36, k - 1);
    }
  }

  /** The collision suffix: base 36 of the 32-bit hash, capped at six digits. */
  function HashSuffix(s: string): string
  {
    var digits := Base36(Fnv32a(s));
    if |digits| > HASH_LEN then digits[..HASH_LEN] else digits
  }

  lemma HashSuffixShape(s: string)
    ensures 1 <= |HashSuffix(s)| <= HASH_LEN
    ensures forall i :: 0 <= i < |HashSuffix(s)| ==> Alphanumeric(HashSuffix(s)[i])
  {
    var n := Fnv32a(s);
    assert n < 0x1_0000_0000 <= Pow36(7) by {
      assert Pow36(3) == 46656 by { assert Pow36(1) == 36; assert Pow36(2) == 1296; }
      assert Pow36(5) == 60466176 by { assert Pow36(4) == 1679616; }
      assert Pow36(7) == 78364164096 by { assert Pow36(6) == 2176782336; }
    }
    Base36Length(n, 7);
  }

  /** `max` is 53 or more at every call site; below 8 the source would slice out of range. */
  function TruncateDNS1123Label(s: string, max: nat): string
    requires max >= HASH_LEN + 2
  {
    if |s| <= max then s
    else
      var suffix := HashSuffix(s);
      HashSuffixShape(s);
      var head := TrimRight(s[..max - |suffix| - 1]);
      if head == [] then suffix else head + "-" + suffix
  }

  function CapReleaseName(name: string): string
  {
    if |name| <= RELEASE_NAME_MAX then name
    else
      var suffix := HashSuffix(name);
      HashSuffixShape(name);
      var head := Trim(name[..RELEASE_NAME_MAX - |suffix| - 1]);
      if head == [] then suffix else head + "-" + suffix
  }

  /** The characters a truncation keeps in front of its suffix, before trimming. */
  function KeptHead(s: string, max: nat): string
    requires max >= HASH_LEN + 2 && |s| > max
  {
    HashSuffixShape(s);
    s[..max - |HashSuffix(s)| - 1]
  }

  lemma {:induction false} ToLowerAt(s: string, i: nat)
    requires i < |s|
    ensures ToLower(s)[i] == if 'A' <= s[i] <= 'Z' then (s[i] as int + 32) as char else s[i]
  {
    if i > 0 { ToLowerAt(s[1..], i - 1); }
  }

  lemma {:induction false} CollapseRunsShape(s: string)
    ensures LabelChars(CollapseRuns(s))
    ensures forall i :: 0 < i < |CollapseRuns(s)| ==> CollapseRuns(s)[i - 1] != '-' || CollapseRuns(s)[i] != '-'
    ensures s != [] && Alphanumeric(s[0]) ==> CollapseRuns(s) != [] && CollapseRuns(s)[0] == s[0]
    decreases |s|
  {
    if s != [] {
      if Alphanumeric(s[0]) {
        CollapseRunsShape(s[1..]);
      } else {
        CollapseRunsShape(SkipRun(s[1..]));
      }
    }
  }

  lemma {:induction false} TrimRightShape(s: string)
    ensures |TrimRight(s)| <= |s| && TrimRight(s) == s[..|TrimRight(s)|]
    ensures TrimRight(s) != [] ==> TrimRight(s)[|TrimRight(s)| - 1] != '-'
    ensures TrimRight(s) == [] <==> AllDashes(s)
  {
    if s != [] && s[|s| - 1] == '-' {
      TrimRightShape(s[..|s| - 1]);
    }
  }

  lemma {:induction false} TrimLeftShape(s: string)
    ensures |TrimLeft(s)| <= |s| && TrimLeft(s) == s[|s| - |TrimLeft(s)|..]
    ensures TrimLeft(s) != [] ==> TrimLeft(s)[0] != '-'
    ensures TrimLeft(s) == [] <==> AllDashes(s)
  {
    if s != [] && s[0] == '-' {
      TrimLeftShape(s[1..]);
      assert AllDashes(s) <==> AllDashes(s[1..]);
    }
  }

  /** Trimming cuts a window out of the string, bounded by non-dashes. */
  lemma TrimShape(s: string) returns (k: nat)
    ensures k + |Trim(s)| <= |s| && Trim(s) == s[k..k + |Trim(s)|]
    ensures Trim(s) != [] ==> Trim(s)[0] != '-' && Trim(s)[|Trim(s)| - 1] != '-'
    ensures Trim(s) == [] <==> AllDashes(s)
  {
    var l := TrimLeft(s);
    TrimLeftShape(s);
    TrimRightShape(l);
    k := |s| - |l|;
    if l != [] {
      assert l[0] != '-' && l[0] == s[k];
    }
  }

  /** A slug holds label characters only, never starts or ends with a dash and never
      repeats one. */
  lemma SlugifyShape(s: string)
    ensures IsSlug(Slugify(s))
  {
    var c := CollapseRuns(ToLower(s));
    CollapseRunsShape(ToLower(s));
    var k := TrimShape(c);
    WindowOfSlug(c, k, Slugify(s));
  }

  lemma WindowOfSlug(c: string, k: nat, r: string)
    requires LabelChars(c)
    requires forall i :: 0 < i < |c| ==> c[i - 1] != '-' || c[i] != '-'
    requires k + |r| <= |c| && r == c[k..k + |r|]
    requires r != [] ==> r[0] != '-' && r[|r| - 1] != '-'
    ensures IsSlug(r)
  {
  }

  lemma {:induction false} CollapseRunsOfSlug(s: string)
    requires LabelChars(s)
    requires forall i :: 0 < i < |s| ==> s[i - 1] != '-' || s[i] != '-'
    ensures CollapseRuns(s) == s
  {
    if s != [] {
      assert s == [s[0]] + s[1..];
      CollapseRunsOfSlug(s[1..]);
      if s[0] == '-' && |s| > 1 {
        assert s[1] != '-';
      }
    }
  }

  lemma {:induction false} ToLowerOfLabelChars(s: string)
    requires LabelChars(s)
    ensures ToLower(s) == s
  {
    forall i | 0 <= i < |s| ensures ToLower(s)[i] == s[i] {
      ToLowerAt(s, i);
    }
  }

  /** Slugs are fixed points: slugifying twice changes nothing more. */
  lemma SlugifyIdempotent(s: string)
    ensures Slugify(Slugify(s)) == Slugify(s)
    ensures IsSlug(s) <==> Slugify(s) == s
  {
    SlugifyShape(s);
    FixedPoint(Slugify(s));
    if IsSlug(s) { FixedPoint(s); }
  }

  lemma FixedPoint(s: string)
    requires IsSlug(s)
    ensures Slugify(s) == s
  {
    ToLowerOfLabelChars(s);
    CollapseRunsOfSlug(s);
  }

  lemma HashedNameIsLabel(head: string, suffix: string)
    requires LabelChars(head) && 1 <= |suffix|
    requires forall i :: 0 <= i < |suffix| ==> Alphanumeric(suffix[i])
    requires |head| + 1 + |suffix| <= LABEL_MAX
    ensures head != [] ==> (IsLabel(head + "-" + suffix) <==> head[0] != '-')
    ensures IsLabel(suffix)
  {
  }

  /** Exactly when a truncated name is a label. A name within the limit is passed on as
      it is, valid or not. A longer one is valid unless it starts with a dash that
      survives: only trailing dashes of the kept head are trimmed. */
  lemma TruncateValid(s: string, max: nat)
    requires HASH_LEN + 2 <= max <= LABEL_MAX
    requires LabelChars(s)
    ensures |TruncateDNS1123Label(s, max)| <= max
    ensures IsLabel(TruncateDNS1123Label(s, max)) <==>
            if |s| <= max then IsLabel(s) else s[0] != '-' || AllDashes(KeptHead(s, max))
  {
    if |s| > max {
      HashSuffixShape(s);
      var kept := KeptHead(s, max);
      TrimRightShape(kept);
      HashedNameIsLabel(TrimRight(kept), HashSuffix(s));
    }
  }

  /** A release name over the limit is always capped to a label, whatever it starts with. */
  lemma CapReleaseNameValid(name: string)
    requires LabelChars(name)
    ensures |CapReleaseName(name)| <= RELEASE_NAME_MAX
    ensures IsLabel(CapReleaseName(name)) <==> |name| > RELEASE_NAME_MAX || IsLabel(name)
    ensures CapReleaseName(CapReleaseName(name)) == CapReleaseName(name)
  {
    if |name| > RELEASE_NAME_MAX {
      HashSuffixShape(name);
      var kept := KeptHead(name, RELEASE_NAME_MAX);
      TrimKeepsLabelChars(kept);
      HashedNameIsLabel(Trim(kept), HashSuffix(name));
    }
  }

  lemma TrimKeepsLabelChars(s: string)
    requires LabelChars(s)
    ensures LabelChars(Trim(s)) && |Trim(s)| <= |s| && (Trim(s) != [] ==> Trim(s)[0] != '-')
  {
    var k := TrimShape(s);
    assert forall i :: 0 <= i < |Trim(s)| ==> Trim(s)[i] == s[k + i];
  }

  lemma TrimWithoutLeadingDash(s: string)
    requires s == [] || s[0] != '-'
    ensures Trim(s) == TrimRight(s)
  {
  }

  /** The two truncations agree at the release-name limit except on an over-long name
      that starts with a dash and keeps something else: there `TruncateDNS1123Label`
      keeps the leading dash and `CapReleaseName` does not. */
  lemma CapsAgree(name: string)
    ensures CapReleaseName(name) == TruncateDNS1123Label(name, RELEASE_NAME_MAX) <==>
            |name| <= RELEASE_NAME_MAX || name[0] != '-' || AllDashes(KeptHead(name, RELEASE_NAME_MAX))
  {
    if |name| > RELEASE_NAME_MAX {
      HashSuffixShape(name);
      var kept := KeptHead(name, RELEASE_NAME_MAX);
      TrimRightShape(kept);
      var k := TrimShape(kept);
      if name[0] != '-' {
        TrimWithoutLeadingDash(kept);
      } else if !AllDashes(kept) {
        assert TruncateDNS1123Label(name, RELEASE_NAME_MAX)[0] == TrimRight(kept)[0] == '-';
        assert CapReleaseName(name)[0] == Trim(kept)[0] != '-';
      }
    }
  }
}

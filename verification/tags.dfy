/** Removal of markup tags, the regular-expression substitution `re.sub(r'<[^>]+>', '', s)`
    that both the subtitle cleaner and the notification cleaner apply first. */
module Tags {
  import opened Wrappers
  import opened Text

  /** Length of the tag `<[^>]+>` that starts `s`, if one does: a `<`, at least one
      character other than `>`, then the first `>`. */
  function TagLength(s: string): (r: Option<nat>)
    ensures r.Some? ==> 3 <= r.value <= |s| && s[0] == '<' && s[r.value - 1] == '>'
    ensures r.Some? ==> forall i :: 1 <= i < r.value - 1 ==> s[i] != '>'
    ensures r.None? && |s| > 0 && s[0] == '<' ==>
              (|s| > 1 && s[1] == '>') || (forall i :: 1 <= i < |s| ==> s[i] != '>')
  {
    if |s| == 0 || s[0] != '<' then None
    else match CharIndexFrom(s, '>', 1)
      case Some(q) => if q >= 2 then Some(q + 1) else None
      case None => None
  }

  /** `re.sub(r'<[^>]+>', '', s)`: scanning left to right, every tag is deleted;
      every other character is kept. */
  function StripTags(s: string): (r: string)
    ensures |r| <= |s|
    ensures forall k :: 0 <= k < |r| ==> r[k] in s
    ensures |s| > 0 && TagLength(s).None? ==> |r| > 0 && r[0] == s[0]
    decreases |s|
  {
    if s == [] then []
    else match TagLength(s)
      case Some(n) => StripTags(s[n..])
      case None => [s[0]] + StripTags(s[1..])
  }

  /** No tag can be found anywhere in `s`: every `<` that has a `>` somewhere after
      it is immediately followed by `>`. */
  ghost predicate NoTag(s: string) {
    forall i, j :: 0 <= i < j < |s| && s[i] == '<' && s[j] == '>' ==> s[i + 1] == '>'
  }

  lemma NoTagCons(c: char, t: string)
    requires NoTag(t)
    requires c == '<' ==> (forall k :: 0 <= k < |t| ==> t[k] != '>') || (|t| > 0 && t[0] == '>')
    ensures NoTag([c] + t)
  {
    var s := [c] + t;
    forall i, j | 0 <= i < j < |s| && s[i] == '<' && s[j] == '>' ensures s[i + 1] == '>' {
      if i > 0 {
        assert s[i] == t[i - 1] && s[j] == t[j - 1];
      } else {
        assert t[j - 1] == '>';
      }
    }
  }

  lemma NoTagSlice(s: string, a: nat, b: nat)
    requires NoTag(s) && a <= b <= |s|
    ensures NoTag(s[a..b])
  {
    var t := s[a..b];
    forall i, j | 0 <= i < j < |t| && t[i] == '<' && t[j] == '>' ensures t[i + 1] == '>' {
      assert s[a + i] == '<' && s[a + j] == '>';
    }
  }

  /** Whatever `StripTags` leaves holds no tag. */
  lemma {:induction false} StripTagsLeavesNoTag(s: string)
    ensures NoTag(StripTags(s))
    decreases |s|
  {
    if s != [] {
      match TagLength(s)
      case Some(n) =>
        StripTagsLeavesNoTag(s[n..]);
      case None =>
        var t := s[1..];
        StripTagsLeavesNoTag(t);
        if s[0] == '<' {
          if |s| > 1 && s[1] == '>' {
            assert TagLength(t).None?;
          } else {
            forall k | 0 <= k < |StripTags(t)| ensures StripTags(t)[k] != '>' {
              var c := StripTags(t)[k];
              assert c in t;
              var m :| 0 <= m < |t| && t[m] == c;
              assert s[m + 1] == c;
            }
          }
        }
        NoTagCons(s[0], StripTags(t));
    }
  }

  /** Text without tags passes through unchanged. */
  lemma {:induction false} StripTagsOfNoTag(s: string)
    requires NoTag(s)
    ensures StripTags(s) == s
    decreases |s|
  {
    if s != [] {
      assert TagLength(s).None?;
      NoTagSlice(s, 1, |s|);
      StripTagsOfNoTag(s[1..]);
      assert s == [s[0]] + s[1..];
    }
  }
}

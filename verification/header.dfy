/** The header's string helpers (ethicsgate-app/src/components/layout/header.tsx): the
    avatar initials derived from the user's full name and the capitalised role label. */
module Header {
  import opened Ascii
  import opened Domain
  import opened Sequences

  /** `s.split(sep)` for a one-character separator: the pieces between separators, empty
      ones included, so `k` separators give `k + 1` pieces and `""` gives `[""]`. */
  function Split(s: string, sep: char): (pieces: seq<string>)
    ensures |pieces| >= 1
    ensures forall k :: 0 <= k < |pieces| ==> sep !in pieces[k]
    decreases |s|
  {
    if |s| == 0 then [""]
    else
      var rest := Split(s[1..], sep);
      if s[0] == sep then [""] + rest
      else
        assert forall k :: 1 <= k < |rest| ==> rest[1..][k - 1] == rest[k];
        [[s[0]] + rest[0]] + rest[1..]
  }

  /** `pieces.join(sep)`. */
  function Join(pieces: seq<string>, sep: char): string
  {
    if |pieces| == 0 then ""
    else if |pieces| == 1 then pieces[0]
    else pieces[0] + [sep] + Join(pieces[1..], sep)
  }

  /** Splitting and joining again with the same separator gives the string back. */
  lemma {:induction false} JoinSplit(s: string, sep: char)
    ensures Join(Split(s, sep), sep) == s
    decreases |s|
  {
    if |s| > 0 {
      var rest := Split(s[1..], sep);
      JoinSplit(s[1..], sep);
      if s[0] == sep {
        assert Split(s, sep) == [""] + rest;
        assert ([""] + rest)[1..] == rest;
      } else {
        var pieces := [[s[0]] + rest[0]] + rest[1..];
        assert Split(s, sep) == pieces;
        if |rest| == 1 {
          assert Join(pieces, sep) == [s[0]] + rest[0];
        } else {
          assert pieces[1..] == rest[1..];
          assert Join(rest, sep) == rest[0] + [sep] + Join(rest[1..], sep);
        }
        assert s == [s[0]] + s[1..];
      }
    }
  }

  /** `pieces.map(n => n[0]).join('')`: an empty piece's `n[0]` is `undefined`, which
      `join` renders as the empty string. */
  function Heads(pieces: seq<string>): (r: string)
    ensures |r| <= |pieces|
  {
    if |pieces| == 0 then ""
    else (if |pieces[0]| == 0 then "" else [pieces[0][0]]) + Heads(pieces[1..])
  }

  /** `x.slice(0, n)`: the first `n` elements, or all of them when there are fewer. */
  function Prefix<T>(xs: seq<T>, n: nat): (r: seq<T>)
    ensures |r| == if |xs| <= n then |xs| else n
    ensures r <= xs
  {
    if |xs| <= n then xs else xs[..n]
  }

  function Initials(fullName: string): (r: string)
    ensures |r| <= 2
    ensures forall i :: 0 <= i < |r| ==> !IsLower(r[i])
  {
    Prefix(Upper(Heads(Split(fullName, ' '))), 2)
  }

  // A reference statement of the initials: the pieces that are not empty, the first two
  // of them, their first characters, upper-cased.

  function NonEmpty(pieces: seq<string>): (r: seq<string>)
    ensures forall k :: 0 <= k < |r| ==> |r[k]| > 0
  {
    if |pieces| == 0 then []
    else if |pieces[0]| == 0 then NonEmpty(pieces[1..])
    else [pieces[0]] + NonEmpty(pieces[1..])
  }

  function FirstLetters(words: seq<string>): (r: string)
    requires forall k :: 0 <= k < |words| ==> |words[k]| > 0
  {
    seq(|words|, k requires 0 <= k < |words| => words[k][0])
  }

  lemma {:induction false} HeadsAreFirstLetters(pieces: seq<string>)
    ensures Heads(pieces) == FirstLetters(NonEmpty(pieces))
  {
    if |pieces| > 0 {
      HeadsAreFirstLetters(pieces[1..]);
      var rest := NonEmpty(pieces[1..]);
      if |pieces[0]| > 0 {
        assert NonEmpty(pieces) == [pieces[0]] + rest;
        assert FirstLetters([pieces[0]] + rest) == [pieces[0][0]] + FirstLetters(rest);
      }
    }
  }

  /** The initials are the upper-cased first characters of the first two non-empty
      space-separated pieces of the name. */
  lemma InitialsOfWords(fullName: string)
    ensures Initials(fullName) == Upper(FirstLetters(Prefix(NonEmpty(Split(fullName, ' ')), 2)))
  {
    var words := NonEmpty(Split(fullName, ' '));
    HeadsAreFirstLetters(Split(fullName, ' '));
    var letters := FirstLetters(words);
    var lhs := Prefix(Upper(letters), 2);
    var rhs := Upper(FirstLetters(Prefix(words, 2)));
    assert |lhs| == |rhs|;
    forall i | 0 <= i < |lhs| ensures lhs[i] == rhs[i] {
      assert lhs[i] == Upper(letters)[i];
    }
  }

  /** A piece without the separator, followed by the separator, splits off as one piece. */
  lemma {:induction false} SplitAppend(w: string, r: string, sep: char)
    requires sep !in w
    ensures Split(w + [sep] + r, sep) == [w] + Split(r, sep)
    decreases |w|
  {
    if |w| > 0 {
      SplitAppend(w[1..], r, sep);
      assert (w + [sep] + r)[1..] == w[1..] + [sep] + r;
      assert [w[0]] + w[1..] == w;
    } else {
      assert w + [sep] + r == [sep] + r;
      assert ([sep] + r)[1..] == r;
    }
  }

  lemma {:induction false} SplitNoSeparator(w: string, sep: char)
    requires sep !in w
    ensures Split(w, sep) == [w]
    decreases |w|
  {
    if |w| > 0 {
      SplitNoSeparator(w[1..], sep);
      assert [w[0]] + w[1..] == w;
    }
  }

  /** Two words separated by one space give the upper-cased first letter of each. */
  lemma InitialsOfTwoWords(first: string, last: string)
    requires |first| > 0 && |last| > 0 && ' ' !in first && ' ' !in last
    ensures Initials(first + " " + last) == [UpperChar(first[0]), UpperChar(last[0])]
  {
    SplitNoSeparator(last, ' ');
    SplitAppend(first, last, ' ');
    assert first + " " + last == first + [' '] + last;
    assert Split(first + " " + last, ' ') == [first, last];
    assert [first, last][1..] == [last];
    assert Heads([last]) == [last[0]] + Heads([]);
    assert Heads([first, last]) == [first[0], last[0]];
  }

  /** A leading space contributes nothing. */
  lemma InitialsIgnoreLeadingSpace(name: string)
    ensures Initials(" " + name) == Initials(name)
  {
    SplitAppend("", name, ' ');
    assert " " + name == "" + [' '] + name;
    assert ([""] + Split(name, ' '))[1..] == Split(name, ' ');
  }

  /** Splitting at a separator splits the two sides independently. */
  lemma {:induction false} SplitConcat(a: string, b: string, sep: char)
    ensures Split(a + [sep] + b, sep) == Split(a, sep) + Split(b, sep)
    decreases |a|
  {
    var s := a + [sep] + b;
    if |a| == 0 {
      assert s == [sep] + b;
      assert s[1..] == b;
    } else {
      SplitConcat(a[1..], b, sep);
      assert s[0] == a[0];
      assert s[1..] == a[1..] + [sep] + b;
      var left := Split(a[1..], sep);
      var right := Split(b, sep);
      var rest := left + right;
      assert Split(s[1..], sep) == rest;
      if a[0] == sep {
        assert Split(s, sep) == [""] + rest;
        assert Split(a, sep) == [""] + left;
        ConcatAssoc([""], left, right);
      } else {
        assert rest[0] == left[0];
        assert rest[1..] == left[1..] + right;
        assert Split(s, sep) == [[a[0]] + left[0]] + (left[1..] + right);
        assert Split(a, sep) == [[a[0]] + left[0]] + left[1..];
        ConcatAssoc([[a[0]] + left[0]], left[1..], right);
      }
    }
  }

  lemma {:induction false} HeadsConcat(x: seq<string>, y: seq<string>)
    ensures Heads(x + y) == Heads(x) + Heads(y)
  {
    if |x| > 0 {
      HeadsConcat(x[1..], y);
      assert (x + y)[1..] == x[1..] + y;
    } else {
      assert x + y == y;
    }
  }

  /** A doubled space splits off one extra empty piece. */
  lemma SplitDoubleSpace(before: string, after: string)
    ensures Split(before + "  " + after, ' ') == Split(before, ' ') + ([""] + Split(after, ' '))
  {
    SplitConcat(before, " " + after, ' ');
    assert before + "  " + after == before + [' '] + (" " + after);
    SplitConcat("", after, ' ');
    assert " " + after == "" + [' '] + after;
  }

  /** A doubled space anywhere contributes nothing beyond a single one. */
  lemma InitialsIgnoreRepeatedSpace(before: string, after: string)
    ensures Initials(before + "  " + after) == Initials(before + " " + after)
  {
    var head := Split(before, ' ');
    var tail := Split(after, ' ');
    SplitDoubleSpace(before, after);
    SplitConcat(before, after, ' ');
    assert before + " " + after == before + [' '] + after;
    assert Heads(head + ([""] + tail)) == Heads(head + tail) by {
      HeadsConcat(head, [""] + tail);
      HeadsConcat([""], tail);
      HeadsConcat(head, tail);
    }
  }

  /** "jane smith" gives "JS" and an empty name gives "". */
  lemma InitialsExamples()
    ensures Initials("jane smith") == "JS"
    ensures Initials("") == ""
  {
    InitialsOfTwoWords("jane", "smith");
    assert "jane" + " " + "smith" == "jane smith";
  }

  lemma SplitTwoWords(first: string, second: string, rest: string)
    requires ' ' !in first && ' ' !in second
    ensures Split(first + " " + second + " " + rest, ' ') == [first, second] + Split(rest, ' ')
  {
    assert first + " " + second + " " + rest == first + [' '] + (second + [' '] + rest);
    SplitAppend(first, second + [' '] + rest, ' ');
    SplitAppend(second, rest, ' ');
  }

  /** Only the first two words count: whatever follows them is dropped. */
  lemma InitialsKeepFirstTwo(first: string, second: string, rest: string)
    requires |first| > 0 && |second| > 0 && ' ' !in first && ' ' !in second
    ensures Initials(first + " " + second + " " + rest) == [UpperChar(first[0]), UpperChar(second[0])]
  {
    SplitTwoWords(first, second, rest);
    var tail := Split(rest, ' ');
    HeadsConcat([first, second], tail);
    assert [first, second][1..] == [second];
    var heads := [first[0], second[0]] + Heads(tail);
    assert Heads([first, second] + tail) == heads;
    assert Upper(heads)[..2] == [UpperChar(first[0]), UpperChar(second[0])];
  }

  /** "mary ann lee" gives "MA". */
  lemma InitialsKeepTwo()
    ensures Initials("mary ann lee") == "MA"
  {
    InitialsKeepFirstTwo("mary", "ann", "lee");
    assert "mary" + " " + "ann" + " " + "lee" == "mary ann lee";
  }

  /** `s.charAt(0).toUpperCase() + s.slice(1)`; `charAt(0)` of the empty string is empty. */
  function Capitalize(s: string): (r: string)
    ensures |r| == |s|
    ensures |s| > 0 ==> r[0] == UpperChar(s[0]) && r[1..] == s[1..]
  {
    if |s| == 0 then "" else [UpperChar(s[0])] + s[1..]
  }

  function RoleLabel(role: UserRole): string
  {
    Capitalize(RoleName(role))
  }

  /** The three role labels: as long as the role name, only the first letter raised, and
      distinct, so the label still tells the roles apart. */
  lemma RoleLabels(a: UserRole, b: UserRole)
    ensures RoleLabel(Researcher) == "Researcher"
    ensures RoleLabel(Reviewer) == "Reviewer"
    ensures RoleLabel(Admin) == "Admin"
    ensures |RoleLabel(a)| == |RoleName(a)|
    ensures a != b ==> RoleLabel(a) != RoleLabel(b)
  {
  }

  /** What the header shows for a signed-in user. */
  datatype HeaderView = HeaderView(organizationName: string, initials: string, fullName: string, email: string, roleLabel: string)

  function View(user: User, organization: Organization): (v: HeaderView)
    ensures |v.initials| <= 2
    ensures v.fullName == user.fullName && v.email == user.email && v.organizationName == organization.name
    ensures |v.roleLabel| == |RoleName(user.role)| && IsUpper(v.roleLabel[0])
  {
    HeaderView(organization.name, Initials(user.fullName), user.fullName, user.email, RoleLabel(user.role))
  }
}

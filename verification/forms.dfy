/**
 * The pieces the page forms share: the two regular expressions written out as
 * predicates, and the `||` chain that turns a failed call into a message.
 */
module Forms {
  import opened Wrappers
  import opened Text
  import opened Js

  predicate NoSpace(s: string) {
    forall i :: 0 <= i < |s| ==> !IsSpace(s[i])
  }

  /**
   * `/^\S+@\S+\.\S+$/.test(s)`: no whitespace anywhere, an `@` after at least one
   * character, and a `.` with at least one character on either side of it after the `@`.
   */
  predicate IsEmail(s: string) {
    NoSpace(s) && exists p, q :: 0 < p && p + 1 < q < |s| - 1 && s[p] == '@' && s[q] == '.'
  }

  /** The same language, read off the pattern: three non-empty runs of non-space characters. */
  ghost predicate EmailShape(s: string) {
    exists a: string, b: string, c: string ::
      && a != [] && b != [] && c != []
      && NoSpace(a) && NoSpace(b) && NoSpace(c)
      && s == a + "@" + b + "." + c
  }

  lemma EmailMatchesPattern(s: string)
    ensures IsEmail(s) <==> EmailShape(s)
  {
    if IsEmail(s) {
      EmailHasShape(s);
    }
    if EmailShape(s) {
      var a: string, b: string, c: string :|
        && a != [] && b != [] && c != []
        && NoSpace(a) && NoSpace(b) && NoSpace(c)
        && s == a + "@" + b + "." + c;
      ShapeIsEmail(a, b, c);
    }
  }

  /** The pieces around the `@` and the `.` chosen by `IsEmail` are the pattern's three runs. */
  lemma EmailHasShape(s: string)
    requires IsEmail(s)
    ensures EmailShape(s)
  {
    var p, q :| 0 < p && p + 1 < q < |s| - 1 && s[p] == '@' && s[q] == '.';
    var a, b, c := s[..p], s[p + 1..q], s[q + 1..];
    assert s == a + "@" + b + "." + c;
    assert NoSpace(a) && NoSpace(b) && NoSpace(c) by {
      assert forall i :: 0 <= i < |b| ==> b[i] == s[p + 1 + i];
      assert forall i :: 0 <= i < |c| ==> c[i] == s[q + 1 + i];
    }
  }

  /** Three non-empty runs joined by `@` and `.` pass `IsEmail`. */
  lemma ShapeIsEmail(a: string, b: string, c: string)
    requires a != [] && b != [] && c != []
    requires NoSpace(a) && NoSpace(b) && NoSpace(c)
    ensures IsEmail(a + "@" + b + "." + c)
  {
    var s := a + "@" + b + "." + c;
    var p, q := |a|, |a| + 1 + |b|;
    assert s[p] == '@' && s[q] == '.';
    assert NoSpace(s) by {
      forall i | 0 <= i < |s| ensures !IsSpace(s[i]) {
        if i < p {
          assert s[i] == a[i];
        } else if p < i < q {
          assert s[i] == b[i - p - 1];
        } else if q < i {
          assert s[i] == c[i - q - 1];
        }
      }
    }
  }

  /** `/^[0-9]{10,11}$/.test(s)`. */
  predicate IsPhone(s: string) {
    10 <= |s| <= 11 && AllDigits(s)
  }

  /** `err?.response?.data?.message || err?.message || fallback`. */
  function FailureMessage(err: Value, fallback: string): (r: Value)
    ensures var server := GetPath(err, ["response", "data", "message"]);
      var own := Get(err, "message");
      && (Truthy(server) ==> r == server)
      && (!Truthy(server) && Truthy(own) ==> r == own)
      && (!Truthy(server) && !Truthy(own) ==> r == Some(JStr(fallback)))
  {
    FirstTruthy([GetPath(err, ["response", "data", "message"]), Get(err, "message"), Some(JStr(fallback))])
  }
}

/** The text a migration's checksum is computed over (src/migrate.rs), and how much of the
    migration it determines. SHA-256 itself is not part of this model. */
module Checksums {
  import opened Migrations
  import Decimals

  /** `i64::to_string`. */
  function PrintVersion(version: int): string {
    if version < 0 then "-" + Decimals.Print(-version) else Decimals.Print(version)
  }

  function Joined(m: Migration): string {
    m.sqlite + "\0" + m.postgres
  }

  function Preimage(m: Migration): string {
    PrintVersion(m.version) + "\0" + m.description + "\0" + m.sqlite + "\0" + m.postgres
  }

  /** What `try_new` admits, one migration at a time. */
  predicate Admitted(m: Migration) {
    m.version > 0 && !HasNul(m.description)
  }

  lemma AdmittedByTryNew(namespace: string, migrations: seq<Migration>, i: nat)
    requires TryNew(namespace, migrations).Success? && i < |migrations|
    ensures Admitted(migrations[i])
  {
    VersionsIncrease(migrations, 0, i);
    assert !HasNul(migrations[i].description);
  }

  /** A text without NUL in front of a NUL is determined by the whole. */
  lemma SplitAtNul(x: string, y: string, x': string, y': string)
    requires x + "\0" + y == x' + "\0" + y' && !HasNul(x) && !HasNul(x')
    ensures x == x' && y == y'
  {
    var whole := x + "\0" + y;
    assert whole[|x|] == '\0' && whole[|x'|] == '\0';
    assert x == whole[..|x|] == x';
    assert y == whole[|x| + 1..] == y';
  }

  lemma PrintVersionHasNoNul(version: int)
    requires version > 0
    ensures !HasNul(PrintVersion(version))
  {
    assert Decimals.AllDigits(Decimals.Print(version));
  }

  /** Two admitted migrations feed the same text to the hash exactly when they agree on
      version and description and on the two dialect texts joined by NUL. */
  lemma PreimageDetermines(m: Migration, n: Migration)
    requires Admitted(m) && Admitted(n)
    ensures Preimage(m) == Preimage(n) <==>
      m.version == n.version && m.description == n.description && Joined(m) == Joined(n)
  {
    Reassociate(m);
    Reassociate(n);
    if Preimage(m) == Preimage(n) {
      PrintVersionHasNoNul(m.version);
      PrintVersionHasNoNul(n.version);
      SplitAtNul(PrintVersion(m.version), m.description + "\0" + Joined(m),
                 PrintVersion(n.version), n.description + "\0" + Joined(n));
      SplitAtNul(m.description, Joined(m), n.description, Joined(n));
      Decimals.ValueOfPrint(m.version);
      Decimals.ValueOfPrint(n.version);
    }
  }

  lemma Reassociate(m: Migration)
    ensures Preimage(m) == PrintVersion(m.version) + "\0" + (m.description + "\0" + Joined(m))
  {
  }

  /** Everything up to the first NUL, and everything after it. */
  function Cut(text: string): (string, string) {
    if text == "" then ("", "")
    else if text[0] == '\0' then ("", text[1..])
    else var rest := Cut(text[1..]); ([text[0]] + rest.0, rest.1)
  }

  lemma {:induction false} CutAtNul(x: string, y: string)
    requires !HasNul(x)
    ensures Cut(x + "\0" + y) == (x, y)
  {
    if x == "" {
      assert (x + "\0" + y)[1..] == y;
    } else {
      assert (x + "\0" + y)[1..] == x[1..] + "\0" + y;
      CutAtNul(x[1..], y);
      assert [x[0]] + x[1..] == x;
    }
  }

  /** The hashed text reads from left to right: the version in decimal, the description, and,
      where the SQLite text has no NUL, the SQLite text and the PostgreSQL text. */
  lemma PreimageReads(m: Migration)
    requires Admitted(m)
    ensures var (version, rest) := Cut(Preimage(m));
      var (description, texts) := Cut(rest);
      && Decimals.AllDigits(version) && Decimals.Value(version) == m.version && version == Decimals.Print(m.version)
      && description == m.description
      && (!HasNul(m.sqlite) ==> Cut(texts) == (m.sqlite, m.postgres))
  {
    Reassociate(m);
    PrintVersionHasNoNul(m.version);
    CutAtNul(PrintVersion(m.version), m.description + "\0" + Joined(m));
    CutAtNul(m.description, Joined(m));
    Decimals.ValueOfPrint(m.version);
    if !HasNul(m.sqlite) { CutAtNul(m.sqlite, m.postgres); }
  }

  /** Injectivity: when neither SQLite text contains NUL, the text fed to the hash determines
      version, description and both dialect texts. */
  lemma PreimageInjective(m: Migration, n: Migration)
    requires Admitted(m) && Admitted(n) && !HasNul(m.sqlite) && !HasNul(n.sqlite)
    requires Preimage(m) == Preimage(n)
    ensures m.(checksum := "") == n.(checksum := "")
  {
    PreimageDetermines(m, n);
    SplitAtNul(m.sqlite, m.postgres, n.sqlite, n.postgres);
  }

  /** Only the joined texts enter the hash, not where they were joined. */
  lemma JoinedElsewhere(m: Migration, n: Migration)
    requires m.version == n.version && m.description == n.description
    requires m.sqlite + "\0" + m.postgres == n.sqlite + "\0" + n.postgres
    ensures Preimage(m) == Preimage(n)
  {
    Reassociate(m);
    Reassociate(n);
  }

  predicate SameTexts(m: Migration, n: Migration) {
    m.sqlite == n.sqlite && m.postgres == n.postgres
  }

  /** Another migration that `try_new` admits feeds the same text to the hash. */
  ghost predicate Collides(m: Migration) {
    exists n :: Admitted(n) && !SameTexts(m, n) && Preimage(n) == Preimage(m)
  }

  lemma NulCollides(m: Migration)
    requires Admitted(m) && (HasNul(m.sqlite) || HasNul(m.postgres))
    ensures Collides(m)
  {
    if i :| 0 <= i < |m.sqlite| && m.sqlite[i] == '\0' {
      var n := m.(sqlite := m.sqlite[..i], postgres := m.sqlite[i + 1..] + "\0" + m.postgres);
      assert m.sqlite == m.sqlite[..i] + "\0" + m.sqlite[i + 1..];
      assert n.sqlite + "\0" + n.postgres == m.sqlite + "\0" + m.postgres;
      JoinedElsewhere(m, n);
      assert |n.sqlite| < |m.sqlite|;
      assert !SameTexts(m, n);
    } else {
      var i :| 0 <= i < |m.postgres| && m.postgres[i] == '\0';
      var n := m.(sqlite := m.sqlite + "\0" + m.postgres[..i], postgres := m.postgres[i + 1..]);
      assert m.postgres == m.postgres[..i] + "\0" + m.postgres[i + 1..];
      assert n.sqlite + "\0" + n.postgres == m.sqlite + "\0" + m.postgres;
      JoinedElsewhere(m, n);
      assert |n.sqlite| > |m.sqlite|;
      assert !SameTexts(m, n);
    }
  }

  lemma CollisionNeedsNul(m: Migration, n: Migration)
    requires Admitted(m) && Admitted(n) && Preimage(n) == Preimage(m)
    requires !HasNul(m.sqlite) && !HasNul(m.postgres)
    ensures SameTexts(m, n)
  {
    PreimageDetermines(m, n);
    var whole := Joined(m);
    assert whole == Joined(n);
    assert whole[|n.sqlite|] == '\0';
    assert |n.sqlite| == |m.sqlite|;
    assert m.sqlite == whole[..|m.sqlite|] == n.sqlite;
    assert m.postgres == whole[|m.sqlite| + 1..] == n.postgres;
  }

  /** The exact condition, one migration at a time: its checksum text is shared with another
      pair of dialect texts if and only if one of its own two texts contains NUL. */
  lemma CollidesExactlyWithNul(m: Migration)
    requires Admitted(m)
    ensures Collides(m) <==> HasNul(m.sqlite) || HasNul(m.postgres)
  {
    if HasNul(m.sqlite) || HasNul(m.postgres) {
      NulCollides(m);
    }
    if !HasNul(m.sqlite) && !HasNul(m.postgres) {
      forall n | Admitted(n) && Preimage(n) == Preimage(m) ensures SameTexts(m, n) {
        CollisionNeedsNul(m, n);
      }
    }
  }

  /** A colliding migration whose SQLite text has no NUL: the condition is on both texts. */
  lemma NulInPostgresTextCollides()
    ensures Admitted(Migration(1, "", "a", "b\0c", "")) && Collides(Migration(1, "", "a", "b\0c", ""))
  {
    var m := Migration(1, "", "a", "b\0c", "");
    assert m.postgres[1] == '\0';
    NulCollides(m);
  }
}

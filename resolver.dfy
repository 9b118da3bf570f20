/**
 * Recipient resolution: the two registry queries, each three equality filters
 * on `district`, `bloodGroup` and `isBloodClear == true`, as filters over the
 * registry's documents in query order.
 */
module Resolver {
  import opened Records

  predicate UserMatches(u: User, district: string, bloodGroup: string)
  {
    u.district == district && u.bloodGroup == bloodGroup && u.isBloodClear
  }

  predicate DonorMatches(d: Donor, district: string, bloodGroup: string)
  {
    d.district == district && d.bloodGroup == bloodGroup && d.isBloodClear
  }

  /** The `users` query. */
  function SelectUsers(users: seq<User>, district: string, bloodGroup: string): (r: seq<User>)
    ensures |r| <= |users|
  {
    if users == [] then []
    else
      (if UserMatches(users[0], district, bloodGroup) then [users[0]] else [])
      + SelectUsers(users[1..], district, bloodGroup)
  }

  /** The `donors` query. */
  function SelectDonors(donors: seq<Donor>, district: string, bloodGroup: string): (r: seq<Donor>)
    ensures |r| <= |donors|
  {
    if donors == [] then []
    else
      (if DonorMatches(donors[0], district, bloodGroup) then [donors[0]] else [])
      + SelectDonors(donors[1..], district, bloodGroup)
  }

  /** The users query returns exactly the matching users. */
  lemma {:induction false} SelectUsersExactly(users: seq<User>, district: string, bloodGroup: string)
    ensures forall u :: u in SelectUsers(users, district, bloodGroup) <==> u in users && UserMatches(u, district, bloodGroup)
  {
    if users != [] {
      SelectUsersExactly(users[1..], district, bloodGroup);
      assert users == [users[0]] + users[1..];
    }
  }

  /** The donors query returns exactly the matching donors. */
  lemma {:induction false} SelectDonorsExactly(donors: seq<Donor>, district: string, bloodGroup: string)
    ensures forall d :: d in SelectDonors(donors, district, bloodGroup) <==> d in donors && DonorMatches(d, district, bloodGroup)
  {
    if donors != [] {
      SelectDonorsExactly(donors[1..], district, bloodGroup);
      assert donors == [donors[0]] + donors[1..];
    }
  }

  /** The donors query returns each selected donor once: distinct document ids stay distinct. */
  lemma {:induction false} SelectDonorsKeepsDistinctIds(donors: seq<Donor>, district: string, bloodGroup: string)
    requires DistinctIds(donors)
    ensures DistinctIds(SelectDonors(donors, district, bloodGroup))
  {
    if donors != [] {
      var tail := donors[1..];
      var rest := SelectDonors(tail, district, bloodGroup);
      var r := SelectDonors(donors, district, bloodGroup);
      assert DistinctIds(tail) by {
        forall i, j | 0 <= i < j < |tail| ensures tail[i].id != tail[j].id {
          assert tail[i] == donors[i + 1] && tail[j] == donors[j + 1];
        }
      }
      SelectDonorsKeepsDistinctIds(tail, district, bloodGroup);
      SelectDonorsExactly(tail, district, bloodGroup);
      if DonorMatches(donors[0], district, bloodGroup) {
        assert r == [donors[0]] + rest;
        forall k, l | 0 <= k < l < |r| ensures r[k].id != r[l].id {
          assert r[l] == rest[l - 1];
          if k > 0 {
            assert r[k] == rest[k - 1];
          } else {
            assert rest[l - 1] in tail;
            var j :| 0 <= j < |tail| && tail[j] == rest[l - 1];
            assert tail[j] == donors[j + 1];
          }
        }
      } else {
        assert r == rest;
      }
    }
  }

  /** The users query keeps query order: it distributes over concatenation. */
  lemma {:induction false} SelectUsersAppend(a: seq<User>, b: seq<User>, district: string, bloodGroup: string)
    ensures SelectUsers(a + b, district, bloodGroup)
         == SelectUsers(a, district, bloodGroup) + SelectUsers(b, district, bloodGroup)
  {
    if a != [] {
      assert (a + b)[1..] == a[1..] + b;
      SelectUsersAppend(a[1..], b, district, bloodGroup);
    } else {
      assert a + b == b;
    }
  }

  /** The donors query keeps query order: it distributes over concatenation. */
  lemma {:induction false} SelectDonorsAppend(a: seq<Donor>, b: seq<Donor>, district: string, bloodGroup: string)
    ensures SelectDonors(a + b, district, bloodGroup)
         == SelectDonors(a, district, bloodGroup) + SelectDonors(b, district, bloodGroup)
  {
    if a != [] {
      assert (a + b)[1..] == a[1..] + b;
      SelectDonorsAppend(a[1..], b, district, bloodGroup);
    } else {
      assert a + b == b;
    }
  }

  /** The donors snapshot is empty exactly when no donor in the registry matches. */
  lemma SelectDonorsEmpty(donors: seq<Donor>, district: string, bloodGroup: string)
    ensures SelectDonors(donors, district, bloodGroup) == []
        <==> forall i :: 0 <= i < |donors| ==> !DonorMatches(donors[i], district, bloodGroup)
  {
    var r := SelectDonors(donors, district, bloodGroup);
    SelectDonorsExactly(donors, district, bloodGroup);
    if r != [] {
      assert r[0] in r;
    }
    if exists i :: 0 <= i < |donors| && DonorMatches(donors[i], district, bloodGroup) {
      var i :| 0 <= i < |donors| && DonorMatches(donors[i], district, bloodGroup);
      assert donors[i] in r;
    }
  }
}

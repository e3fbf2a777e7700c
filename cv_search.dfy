/** The dashboard's CV list: the page of CVs the server returns, narrowed
    on the client by a search term, and the page count taken from the
    server's total. */
module CVSearch {
  import opened Common

  /** The applicant a CV belongs to; any field may be missing. */
  datatype Applicant = Applicant(
    firstName: Option<string>, lastName: Option<string>,
    email: Option<string>, phone: Option<string>)

  datatype Cv = Cv(id: nat, user: Option<Applicant>, fileName: Option<string>)

  /** The list endpoint answers with a page (its results and the total
      count, when given) or with a bare list. */
  datatype Listing = Paged(results: seq<Cv>, count: Option<nat>) | Bare(cvs: seq<Cv>)

  const PageSize: int := 20

  /** A missing text reads as the empty string. */
  function OrEmpty(s: Option<string>): (r: string)
    ensures s.Some? ==> r == s.value
    ensures s.None? ==> r == []
  {
    if s.Some? then s.value else []
  }

  function FirstName(cv: Cv): string {
    if cv.user.Some? then OrEmpty(cv.user.value.firstName) else []
  }

  function LastName(cv: Cv): string {
    if cv.user.Some? then OrEmpty(cv.user.value.lastName) else []
  }

  function Email(cv: Cv): string {
    if cv.user.Some? then OrEmpty(cv.user.value.email) else []
  }

  function Phone(cv: Cv): string {
    if cv.user.Some? then OrEmpty(cv.user.value.phone) else []
  }

  /** The search term occurs, ignoring case, in the applicant's full name,
      email or phone, or in the file name. */
  predicate Matches(cv: Cv, term: string) {
    var search := Lower(term);
    Contains(Lower(FirstName(cv) + " " + LastName(cv)), search)
    || Contains(Lower(Email(cv)), search)
    || Contains(Lower(Phone(cv)), search)
    || Contains(Lower(OrEmpty(cv.fileName)), search)
  }

  /** The CVs that match, in their original order. */
  function Search(cvs: seq<Cv>, term: string): (r: seq<Cv>)
    ensures |r| <= |cvs|
    ensures forall k :: 0 <= k < |r| ==> Matches(r[k], term)
  {
    if cvs == [] then []
    else (if Matches(cvs[0], term) then [cvs[0]] else []) + Search(cvs[1..], term)
  }

  /** The list shown: everything when there is no search term. */
  function Shown(cvs: seq<Cv>, term: string): seq<Cv> {
    if term == [] then cvs else Search(cvs, term)
  }

  /** The CVs of a response, before searching. */
  function Fetched(data: Listing): seq<Cv> {
    match data
    case Paged(results, _) => results
    case Bare(cvs) => cvs
  }

  /** Whole pages of twenty needed for a count, rounded up. */
  function PagesFor(count: int): (n: int)
    requires count > 0
    ensures n >= 1 && (n - 1) * PageSize < count <= n * PageSize
  {
    (count + PageSize - 1) / PageSize
  }

  /** The page count after a load: recomputed from a non-zero server count,
      kept as it was otherwise. */
  function TotalPages(data: Listing, previous: int): (n: int)
    ensures data.Paged? && data.count.Some? && data.count.value > 0 ==>
      n >= 1 && (n - 1) * PageSize < data.count.value <= n * PageSize
    ensures !(data.Paged? && data.count.Some? && data.count.value > 0) ==> n == previous
  {
    if data.Paged? && data.count.Some? && data.count.value > 0 then PagesFor(data.count.value)
    else previous
  }

  /** A CV is kept exactly when it was fetched and matches. */
  lemma {:induction false} SearchMembers(cvs: seq<Cv>, term: string, cv: Cv)
    ensures cv in Search(cvs, term) <==> cv in cvs && Matches(cv, term)
  {
    if cvs != [] {
      SearchMembers(cvs[1..], term, cv);
      assert cvs == [cvs[0]] + cvs[1..];
    }
  }

  /** Searching keeps the order: the matches of a concatenation are the
      matches of its parts, one after the other. */
  lemma {:induction false} SearchAppend(a: seq<Cv>, b: seq<Cv>, term: string)
    ensures Search(a + b, term) == Search(a, term) + Search(b, term)
  {
    if a == [] {
      assert a + b == b;
    } else {
      assert (a + b)[1..] == a[1..] + b;
      SearchAppend(a[1..], b, term);
    }
  }

  /** A list whose every CV matches is shown unchanged. */
  lemma {:induction false} SearchKeepsMatching(cvs: seq<Cv>, term: string)
    requires forall k :: 0 <= k < |cvs| ==> Matches(cvs[k], term)
    ensures Search(cvs, term) == cvs
  {
    if cvs != [] {
      SearchKeepsMatching(cvs[1..], term);
    }
  }

  /** Searching twice with the same term changes nothing more. */
  lemma SearchIdempotent(cvs: seq<Cv>, term: string)
    ensures Search(Search(cvs, term), term) == Search(cvs, term)
  {
    SearchKeepsMatching(Search(cvs, term), term);
  }

  /** An empty term shows the fetched list as it came; a non-empty one
      shows only matching CVs. */
  lemma ShownList(cvs: seq<Cv>, term: string)
    ensures term == [] ==> Shown(cvs, term) == cvs
    ensures term != [] ==> forall cv :: cv in Shown(cvs, term) <==> cv in cvs && Matches(cv, term)
  {
    if term != [] {
      forall cv
        ensures cv in Shown(cvs, term) <==> cv in cvs && Matches(cv, term)
      {
        SearchMembers(cvs, term, cv);
      }
    }
  }

  /** An applicant whose email is the term, in any case, is found. */
  lemma FoundByEmail(cv: Cv, term: string)
    requires Lower(Email(cv)) == Lower(term)
    ensures Matches(cv, term)
  {
    ContainsAt(Lower(Email(cv)), Lower(term), 0);
  }

  /** A CV with no applicant and no file name offers only the single
      space of its empty full name, so no longer term finds it. */
  lemma NothingToMatch(cv: Cv, term: string)
    requires cv.user.None? && cv.fileName.None? && |term| >= 2
    ensures !Matches(cv, term)
  {
    assert Lower(FirstName(cv) + " " + LastName(cv)) == " ";
    assert Lower(Email(cv)) == [] && Lower(Phone(cv)) == [] && Lower(OrEmpty(cv.fileName)) == [];
  }
}

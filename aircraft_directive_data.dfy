/**
 * The airworthiness-directive record and its validating factory.
 *
 * A record is a mutable object with six public fields. A plain `new` gives the
 * documented defaults; the static factory `Create` rejects an issue number that
 * is present and not positive, and otherwise allocates a fresh record and copies
 * its six arguments into it, one field at a time.
 *
 * The issue number is an `Option<int>`: `None` is an omitted (undefined) issue.
 * The guard `issue <= 0` is false for undefined, so an omitted issue passes it
 * and the record's issue number stays absent.
 */
module AircraftDirective {
  import opened Wrappers
  import opened DirectiveType

  /** The reference a record carries until one is assigned. */
  const UnknownReference: string := "unknown"

  /** Why the factory refused to build a record: the offending issue number. */
  datatype CreateError = IssueNotPositive(issue: int)

  /** The value held by a record's six fields at one moment. */
  datatype DirectiveRecord = DirectiveRecord(
    documentReference: string,
    issueNumber: Option<int>,
    active: bool,
    typeCertificate: Option<string>,
    directiveType: Option<ADType>,
    description: Option<string>)

  /** The issue numbers the factory's guard lets through: absent, or positive. */
  predicate AcceptedIssue(issue: Option<int>) {
    issue.None? || issue.value > 0
  }

  /** The field initialisers of a plain-constructed record. */
  function DefaultRecord(): (r: DirectiveRecord)
    ensures !AcceptedIssue(r.issueNumber)
    ensures r.typeCertificate.None? && r.directiveType.None? && r.description.None?
  {
    DirectiveRecord(UnknownReference, Some(0), false, None, None, None)
  }

  /** The factory's guard: the issue number it refuses, if any. */
  function CheckIssue(issue: Option<int>): (e: Option<CreateError>)
    ensures e.None? <==> issue.None? || issue.value > 0
    ensures e.Some? ==> issue == Some(e.value.issue) && e.value.issue <= 0
  {
    match issue
    case Some(n) => if n <= 0 then Some(IssueNotPositive(n)) else None
    case None => None
  }

  /**
   * The factory's copying step: start from the defaults and overwrite each of
   * the six fields with its argument. No default survives.
   */
  function AssignFields(ref: string, issue: Option<int>, active: bool, typeCert: Option<string> := None,
                        directiveType: Option<ADType> := None, description: Option<string> := None): (r: DirectiveRecord)
    ensures r == DirectiveRecord(ref, issue, active, typeCert, directiveType, description)
    ensures AcceptedIssue(r.issueNumber) <==> AcceptedIssue(issue)
  {
    DefaultRecord()
      .(documentReference := ref)
      .(issueNumber := issue)
      .(active := active)
      .(typeCertificate := typeCert)
      .(directiveType := directiveType)
      .(description := description)
  }

  /** What the factory produces from its six arguments, as a value. */
  function Build(ref: string, issue: Option<int>, active: bool, typeCert: Option<string> := None,
                 directiveType: Option<ADType> := None, description: Option<string> := None)
    : (r: Result<DirectiveRecord, CreateError>)
    ensures r.Success? <==> AcceptedIssue(issue)
    ensures r.Success? ==> AcceptedIssue(r.value.issueNumber)
    ensures r.Success? ==> r.value == DirectiveRecord(ref, issue, active, typeCert, directiveType, description)
    ensures r.Failure? ==> issue == Some(r.error.issue) && r.error.issue <= 0
  {
    match CheckIssue(issue)
    case Some(e) => Failure(e)
    case None => Success(AssignFields(ref, issue, active, typeCert, directiveType, description))
  }

  /** A record that passes the guard is rebuilt unchanged from its own fields. */
  lemma RebuildAccepted(r: DirectiveRecord)
    requires AcceptedIssue(r.issueNumber)
    ensures Build(r.documentReference, r.issueNumber, r.active,
                  r.typeCertificate, r.directiveType, r.description) == Success(r)
  {
  }

  /** The records the factory can produce are exactly those whose issue passes the guard. */
  lemma AcceptedIffBuildable(r: DirectiveRecord)
    ensures AcceptedIssue(r.issueNumber) <==>
      exists ref, issue, active, typeCert, directiveType, description ::
        Build(ref, issue, active, typeCert, directiveType, description) == Success(r)
  {
    if AcceptedIssue(r.issueNumber) {
      RebuildAccepted(r);
    }
  }

  /** A plain-constructed record is never one the factory could have returned. */
  lemma DefaultNotBuildable(ref: string, issue: Option<int>, active: bool, typeCert: Option<string>,
                            directiveType: Option<ADType>, description: Option<string>)
    ensures Build(ref, issue, active, typeCert, directiveType, description) != Success(DefaultRecord())
  {
  }

  /**
   * The factory checks the issue number and nothing else: whether it succeeds
   * does not depend on the reference, the flag or the optional arguments.
   */
  lemma OnlyIssueChecked(ref1: string, ref2: string, issue: Option<int>, active1: bool, active2: bool,
                         typeCert1: Option<string>, typeCert2: Option<string>,
                         directiveType1: Option<ADType>, directiveType2: Option<ADType>,
                         description1: Option<string>, description2: Option<string>)
    ensures Build(ref1, issue, active1, typeCert1, directiveType1, description1).Success? ==
            Build(ref2, issue, active2, typeCert2, directiveType2, description2).Success?
  {
  }

  /** Two successful calls give equal records only when all six arguments agree. */
  lemma BuildInjective(ref1: string, ref2: string, issue1: Option<int>, issue2: Option<int>,
                       active1: bool, active2: bool,
                       typeCert1: Option<string>, typeCert2: Option<string>,
                       directiveType1: Option<ADType>, directiveType2: Option<ADType>,
                       description1: Option<string>, description2: Option<string>)
    requires Build(ref1, issue1, active1, typeCert1, directiveType1, description1).Success?
    requires Build(ref1, issue1, active1, typeCert1, directiveType1, description1) ==
             Build(ref2, issue2, active2, typeCert2, directiveType2, description2)
    ensures ref1 == ref2 && issue1 == issue2 && active1 == active2
    ensures typeCert1 == typeCert2 && directiveType1 == directiveType2 && description1 == description2
  {
  }

  /** A call that omits the three optional arguments leaves those fields absent. */
  lemma OmittedOptionalsAbsent(ref: string, issue: Option<int>, active: bool)
    requires AcceptedIssue(issue)
    ensures Build(ref, issue, active).Success?
    ensures Build(ref, issue, active).value.typeCertificate.None?
    ensures Build(ref, issue, active).value.directiveType.None?
    ensures Build(ref, issue, active).value.description.None?
  {
  }

  /** A directive record whose fields are public and assigned in place. */
  class AircraftDirectiveData {
    var documentReference: string
    var issueNumber: Option<int>
    var active: bool
    var typeCertificate: Option<string>
    var directiveType: Option<ADType>
    var description: Option<string>

    /** The record's current field values. */
    function Value(): DirectiveRecord
      reads this
    {
      DirectiveRecord(documentReference, issueNumber, active, typeCertificate, directiveType, description)
    }

    /** True when the record's issue number is one the factory would accept. */
    predicate HasAcceptedIssue()
      reads this
    {
      AcceptedIssue(issueNumber)
    }

    /** Plain construction: every field takes its initialiser. */
    constructor ()
      ensures documentReference == UnknownReference && issueNumber == Some(0) && !active
      ensures typeCertificate == None && directiveType == None && description == None
      ensures Value() == DefaultRecord()
      ensures !HasAcceptedIssue()
    {
      documentReference := UnknownReference;
      issueNumber := Some(0);
      active := false;
      typeCertificate := None;
      directiveType := None;
      description := None;
    }

    /**
     * The validating factory. It fails when the issue number is present and not
     * positive; otherwise it returns a freshly allocated record holding the six
     * arguments. It has no `modifies` clause, so no record that existed before
     * is changed.
     */
    static method Create(ref: string, issue: Option<int>, active: bool, typeCert: Option<string> := None,
                         directiveType: Option<ADType> := None, description: Option<string> := None)
      returns (r: Result<AircraftDirectiveData, CreateError>)
      ensures r.Success? <==> issue.None? || issue.value > 0
      ensures r.Failure? ==> issue == Some(r.error.issue) && r.error.issue <= 0
      ensures r.Success? ==> fresh(r.value) && r.value.HasAcceptedIssue()
      ensures r.Success? ==> r.value.Value() == DirectiveRecord(ref, issue, active, typeCert, directiveType, description)
    {
      if issue.Some? && issue.value <= 0 {
        return Failure(IssueNotPositive(issue.value));
      }
      var retval := new AircraftDirectiveData();
      retval.documentReference := ref;
      retval.issueNumber := issue;
      retval.active := active;
      retval.typeCertificate := typeCert;
      retval.directiveType := directiveType;
      retval.description := description;
      return Success(retval);
    }
  }
}

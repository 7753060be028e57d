# Airworthiness directive record

This project models `AircraftDirectiveData`, the directive record of the gliding-authority
airworthiness-directive utilities, and proves what its two ways of construction guarantee.

- A plain `new AircraftDirectiveData()` gives the field initialisers: reference `"unknown"`,
  issue number `0`, `active` false, and no type certificate, directive type or description.
- The static factory `create(ref, issue, active, typeCert?, type?, description?)` throws when
  `issue <= 0`. Otherwise it allocates a new record and copies its six arguments into the
  six fields.

The issue number is modelled as `Option<int>`. `None` stands for an omitted (`undefined`)
issue. In the source, `undefined <= 0` is false, so an omitted issue passes the guard, and the
record's `issueNumber` stays undefined. The repository's loader tests expect exactly this for
a row without an issue number. So the factory accepts an issue that is absent or positive,
and it refuses one that is present and not positive.

The model has three modules:

- `Wrappers`: `Option` for TypeScript optional properties and arguments, and `Result` for the
  factory's outcome. `Failure` stands for the thrown `Error`.
- `DirectiveType`: the `ADType` enumeration.
- `AircraftDirective`: the record as a class with mutable fields, its parameterless
  constructor and its static `Create` method. The optional arguments default to `None`, as
  in TypeScript. Beside them is a value-level view (`DirectiveRecord`, `DefaultRecord`,
  `CheckIssue`, `AssignFields`, `Build`). `Create` is proved against that view, and lemmas
  about it state the factory's guarantees.

The source field `type` is named `directiveType` here, because `type` is a Dafny keyword.

## Model

| member | source | states |
|---|---|---|
| AircraftDirective.AircraftDirectiveData.constructor | src/airworthiness/aircraft-directive-data.ts:12-18 | A plain-constructed record has reference "unknown", issue 0, active false and no optional field; so its issue is not one the factory accepts |
| AircraftDirective.AircraftDirectiveData.Create | src/airworthiness/aircraft-directive-data.ts:20-34 | Fails exactly when the issue is present and <= 0, naming that issue; otherwise returns a freshly allocated record whose six fields equal the six arguments (an omitted issue stays absent); changes no existing object |
| AircraftDirective.DefaultRecord | src/airworthiness/aircraft-directive-data.ts:12-18 | The initialiser values fail the factory's issue guard and leave all three optional fields absent |
| AircraftDirective.CheckIssue | src/airworthiness/aircraft-directive-data.ts:21-23 | The guard refuses an issue exactly when it is present and not positive; an omitted issue passes |
| AircraftDirective.AssignFields | src/airworthiness/aircraft-directive-data.ts:25-31 | Overwriting the defaults field by field leaves no default behind: the record holds the six arguments, and its issue passes the guard exactly when the argument does |
| AircraftDirective.Build | src/airworthiness/aircraft-directive-data.ts:20-34 | The factory as a value: succeeds iff the issue is absent or positive; a success holds the arguments; a failure carries the refused issue |
| AircraftDirective.RebuildAccepted | src/airworthiness/aircraft-directive-data.ts:25-33 | Calling the factory with the fields of a record whose issue passes the guard returns that same record |
| AircraftDirective.AcceptedIffBuildable | src/airworthiness/aircraft-directive-data.ts:20-34 | The records the factory can return are exactly those whose issue number is absent or positive |
| AircraftDirective.DefaultNotBuildable | src/airworthiness/aircraft-directive-data.ts:12-27 | No call to the factory returns the plain-constructed default record |
| AircraftDirective.OnlyIssueChecked | src/airworthiness/aircraft-directive-data.ts:20-31 | Whether the factory succeeds depends on the issue number alone, not on the reference (even an empty one), the flag or the optional arguments |
| AircraftDirective.OmittedOptionalsAbsent | src/airworthiness/aircraft-directive-data.ts:29-31 | A call that omits the three optional arguments succeeds whenever the issue passes the guard, and leaves those three fields absent |
| AircraftDirective.BuildInjective | src/airworthiness/aircraft-directive-data.ts:26-31 | Two successful calls give equal records only when all six arguments are equal: nothing is dropped or merged |

## Left out

- JavaScript `number` semantics for the issue number: a present issue is an unbounded `int`, so non-integers and NaN are not modelled. In the source `NaN <= 0` is false, so NaN would pass the guard.
- `null` as the issue argument is not modelled. In the source `null <= 0` is true, so the factory refuses it; only `undefined` (`None`) is modelled as an omitted issue.
- The text of the thrown error: the failure carries only the refused issue number.
- `ADType`: src/airworthiness/directive-type.ts is not part of this model. Only the members that the repository's tests name (GENERAL, ENGINE, GLIDER) are declared.
- `DirectivesLoader.listAllDirectives`: a stub that returns an empty list for every input. Its tests exercise a static, asynchronous, file-reading API that the code does not contain, so no row extraction, filtering or date conversion is modelled.
- `issueDate`: the loader's tests read it, but the record class does not declare it.
- src/index.ts: re-exports only.

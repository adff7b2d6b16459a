/**
 * The shared vocabulary of the application: severities, services, the report
 * lifecycle with its fixed step order, the lookup tables for labels and styles,
 * and the report and user records.
 */
module Types {
  import opened Base

  datatype Severity = Low | Medium | High | Critical
  datatype Service = Police | Ambulance | Fire
  datatype ReportStatus = Received | Preparing | Dispatched | OnTheWay | InProgress | Resolved
  datatype Role = Citizen | Admin

  /** The wire spelling of a severity (`'low'`, ...). */
  function SeverityKey(s: Severity): string {
    match s
    case Low => "low"
    case Medium => "medium"
    case High => "high"
    case Critical => "critical"
  }

  function ServiceKey(s: Service): string {
    match s
    case Police => "police"
    case Ambulance => "ambulance"
    case Fire => "fire"
  }

  function StatusKey(s: ReportStatus): string {
    match s
    case Received => "received"
    case Preparing => "preparing"
    case Dispatched => "dispatched"
    case OnTheWay => "on-the-way"
    case InProgress => "in-progress"
    case Resolved => "resolved"
  }

  function RoleKey(r: Role): string {
    match r
    case Citizen => "citizen"
    case Admin => "admin"
  }

  /** Distinct values have distinct wire spellings, so comparing keys is comparing values. */
  lemma KeysInjective()
    ensures forall a, b :: SeverityKey(a) == SeverityKey(b) ==> a == b
    ensures forall a, b :: ServiceKey(a) == ServiceKey(b) ==> a == b
    ensures forall a, b :: StatusKey(a) == StatusKey(b) ==> a == b
    ensures forall a, b :: RoleKey(a) == RoleKey(b) ==> a == b
  {
  }

  // ---------------------------------------------------------------------------
  // The lifecycle

  datatype Step = Step(key: ReportStatus, title: string, description: string)

  /** `STATUS_STEPS`: the lifecycle in order, terminal state last. */
  const StatusSteps: seq<Step> := [
    Step(Received, "Request Received", "Emergency report logged into system"),
    Step(Preparing, "Preparing Response", "Assigning appropriate response teams"),
    Step(Dispatched, "Team Dispatched", "Response team has been deployed"),
    Step(OnTheWay, "On the Way", "Response team en route to location"),
    Step(InProgress, "Action in Progress", "Response team on scene, handling situation"),
    Step(Resolved, "Resolved", "Emergency has been resolved successfully")
  ]

  /** Position of a status in the lifecycle. */
  function StatusIndex(s: ReportStatus): (k: nat)
    ensures k < |StatusSteps| && StatusSteps[k].key == s
  {
    match s
    case Received => 0
    case Preparing => 1
    case Dispatched => 2
    case OnTheWay => 3
    case InProgress => 4
    case Resolved => 5
  }

  /** Six steps with pairwise distinct keys, ordered as the lifecycle, `Resolved` last. */
  lemma StatusStepsShape()
    ensures |StatusSteps| == 6
    ensures forall i, j :: 0 <= i < j < |StatusSteps| ==> StatusSteps[i].key != StatusSteps[j].key
    ensures forall i :: 0 <= i < |StatusSteps| ==> StatusIndex(StatusSteps[i].key) == i
    ensures StatusSteps[|StatusSteps| - 1].key == Resolved
    ensures forall s :: StatusIndex(s) == |StatusSteps| - 1 <==> s == Resolved
  {
  }

  // ---------------------------------------------------------------------------
  // `SERVICE_INFO` and `SEVERITY_CONFIG`

  datatype ServiceInfo = ServiceInfo(title: string, color: string)
  datatype SeverityConfig = SeverityConfig(title: string, className: string)

  function ServiceInfoOf(s: Service): ServiceInfo {
    match s
    case Police => ServiceInfo("Police", "severity-low")
    case Ambulance => ServiceInfo("Ambulance", "severity-high")
    case Fire => ServiceInfo("Fire Dept", "severity-critical")
  }

  function SeverityConfigOf(s: Severity): SeverityConfig {
    match s
    case Low => SeverityConfig("Low", "bg-severity-low/15 text-severity-low border-severity-low/30")
    case Medium => SeverityConfig("Medium", "bg-severity-medium/15 text-severity-medium border-severity-medium/30")
    case High => SeverityConfig("High", "bg-severity-high/15 text-severity-high border-severity-high/30")
    case Critical => SeverityConfig("Critical", "bg-severity-critical/15 text-severity-critical border-severity-critical/30")
  }

  /** The service a `SERVICE_INFO` title names, if any. */
  function ServiceOfTitle(title: string): Option<Service> {
    if title == "Police" then Some(Police)
    else if title == "Ambulance" then Some(Ambulance)
    else if title == "Fire Dept" then Some(Fire)
    else None
  }

  /** The severity a `SEVERITY_CONFIG` title names, if any. */
  function SeverityOfTitle(title: string): Option<Severity> {
    if title == "Low" then Some(Low)
    else if title == "Medium" then Some(Medium)
    else if title == "High" then Some(High)
    else if title == "Critical" then Some(Critical)
    else None
  }

  /** `SERVICE_INFO` gives every service a title (the source's `label`) that names it alone. */
  lemma ServiceTitlesDistinct(s: Service)
    ensures ServiceOfTitle(ServiceInfoOf(s).title) == Some(s)
  {
    match s
    case Police =>
    case Ambulance => assert "Ambulance" != "Police" by { assert |"Ambulance"| != |"Police"|; }
    case Fire =>
      assert "Fire Dept" != "Police" by { assert |"Fire Dept"| != |"Police"|; }
      assert "Fire Dept" != "Ambulance" by { assert "Fire Dept"[0] != "Ambulance"[0]; }
  }

  /** `SEVERITY_CONFIG` gives every severity a title that names it alone. */
  lemma SeverityTitlesDistinct(s: Severity)
    ensures SeverityOfTitle(SeverityConfigOf(s).title) == Some(s)
  {
    match s
    case Low =>
    case Medium => assert |"Medium"| != |"Low"|;
    case High => assert |"High"| != |"Low"| && |"High"| != |"Medium"|;
    case Critical => assert |"Critical"| != |"Low"| && |"Critical"| != |"Medium"| && |"Critical"| != |"High"|;
  }

  // ---------------------------------------------------------------------------
  // Records

  datatype Report = Report(
    id: string,
    description: string,
    severity: Severity,
    services: seq<Service>,
    status: ReportStatus,
    location: string,
    victims: int,
    contact: string,
    timestamp: string,
    media: seq<string>,
    dispatchMessage: string,
    reporterName: string)

  datatype User = User(id: string, name: string, email: string, role: Role)
}

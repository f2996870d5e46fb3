/**
 * Assets/Scripts/MissionPromptController.cs: one global mission prompt broadcast to every
 * detector in the scene. The detectors the engine finds are an input sequence, and a C#
 * string that may be null is an `Option<string>`.
 */
module MissionPrompt {
  import opened Wrappers
  import opened AttributeDetectors

  /** A null query counts as the empty one. */
  function Normalized(q: Option<string>): (s: string)
    ensures q.Some? ==> s == q.value
    ensures q.None? ==> s == ""
  {
    match q
    case Some(text) => text
    case None => ""
  }

  /** The non-null detectors of a scan. */
  function Targets(found: seq<AttributeDetector?>): set<AttributeDetector>
  {
    set d: AttributeDetector | d in found
  }

  class MissionPromptController {
    var defaultMissionQuery: string
    var applyOnStart: bool
    /** the text of the optional prompt UI; null until `Awake` */
    var runtimeText: Option<string>

    /** The component's field initialisers. */
    constructor ()
      ensures defaultMissionQuery == "person with orange jacket and yellow hard hat"
      ensures applyOnStart && runtimeText == None
    {
      defaultMissionQuery := "person with orange jacket and yellow hard hat";
      applyOnStart := true;
      runtimeText := None;
    }

    /** `Awake`: the prompt text starts as the default query. */
    method Awake()
      modifies this`runtimeText
      ensures runtimeText == Some(defaultMissionQuery)
    {
      runtimeText := Some(defaultMissionQuery);
    }

    /** `SetMissionQuery`: every detector found gets the (normalised) query and the prompt
     *  text shows it; null entries are skipped and no other field of a detector changes. */
    method SetMissionQuery(q: Option<string>, found: seq<AttributeDetector?>)
      modifies this`runtimeText, Targets(found)`missionQuery
      ensures runtimeText == Some(Normalized(q))
      ensures forall d | d in Targets(found) :: d.missionQuery == Normalized(q)
    {
      var query := "";
      if q.Some? {
        query := q.value;
      }
      for i := 0 to |found|
        invariant forall j | 0 <= j < i && found[j] != null :: found[j].missionQuery == query
      {
        if found[i] != null {
          found[i].missionQuery := query;
        }
      }
      runtimeText := Some(query);
    }

    /** `OnUIEndEdit`: the UI callback is `SetMissionQuery`. */
    method OnUIEndEdit(text: Option<string>, found: seq<AttributeDetector?>)
      modifies this`runtimeText, Targets(found)`missionQuery
      ensures runtimeText == Some(Normalized(text))
      ensures forall d | d in Targets(found) :: d.missionQuery == Normalized(text)
    {
      SetMissionQuery(text, found);
    }

    /** `ApplyDefaultMissionQuery`: broadcasts the default query. */
    method ApplyDefaultMissionQuery(found: seq<AttributeDetector?>)
      modifies this`runtimeText, Targets(found)`missionQuery
      ensures runtimeText == Some(old(defaultMissionQuery))
      ensures forall d | d in Targets(found) :: d.missionQuery == old(defaultMissionQuery)
    {
      SetMissionQuery(Some(defaultMissionQuery), found);
    }

    /** `Start`: applies the default query when `applyOnStart` is set, else changes nothing. */
    method Start(found: seq<AttributeDetector?>)
      modifies this`runtimeText, Targets(found)`missionQuery
      ensures applyOnStart ==>
        && runtimeText == Some(defaultMissionQuery)
        && (forall d | d in Targets(found) :: d.missionQuery == defaultMissionQuery)
      ensures !applyOnStart ==> unchanged(this) && (forall d | d in Targets(found) :: unchanged(d))
    {
      if applyOnStart {
        ApplyDefaultMissionQuery(found);
      }
    }
  }
}

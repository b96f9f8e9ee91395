/**
 * The form controller: the component state (`formData`, `errors`,
 * `loading`, `result`) and the two event handlers that change it. The
 * prediction request is not performed here: `handleSubmit` is split at its
 * `await` into the part that runs before the request is sent and the part
 * that runs once its reply, a parameter, has arrived.
 */
module Assessment {
  import opened Wrappers
  import opened Survey
  import opened Presentation

  /** How the prediction request ends: the server's label, or a rejected request. */
  datatype Reply = Prediction(prediction: string) | Failure

  class Controller {
    var record: Record
    var errors: map<Field, string>
    var loading: bool
    var result: Option<string>
    /** The records posted to the prediction service, oldest first. */
    ghost var requests: seq<Record>
    /** How many failure alerts have been raised. */
    ghost var alerts: nat

    /** The state the component mounts with: nothing typed, no errors shown, no result. */
    constructor ()
      ensures record == InitialRecord && errors == map[] && !loading && result == None
      ensures requests == [] && alerts == 0
    {
      record := InitialRecord;
      errors := map[];
      loading := false;
      result := None;
      requests := [];
      alerts := 0;
    }

    /** The submit button: `disabled={!isFormValid || loading}`. */
    predicate SubmitEnabled()
      reads this
    {
      IsFormValid(record) && !loading
    }

    /** The error messages on screen are those of the current record. */
    predicate ErrorsCurrent()
      reads this
    {
      errors == Validate(record)
    }

    /**
     * `handleChange`: the record with one field replaced by the typed value,
     * and the error messages recomputed from scratch for that record.
     */
    method OnChange(name: Field, value: string)
      modifies this
      ensures record == Update(old(record), name, value)
      ensures errors == Validate(record)
      ensures loading == old(loading) && result == old(result)
      ensures requests == old(requests) && alerts == old(alerts)
    {
      record := Update(record, name, value);
      errors := Validate(record);
    }

    /**
     * `handleSubmit` up to the request: the errors of the current record are
     * shown, and only when there are none is the request sent, with
     * `loading` set and the previous result cleared.
     */
    method StartSubmit() returns (sent: bool)
      modifies this
      ensures sent <==> IsFormValid(old(record))
      ensures record == old(record) && errors == Validate(record) && alerts == old(alerts)
      ensures sent ==> loading && result == None && requests == old(requests) + [record]
      ensures sent ==> !SubmitEnabled()
      ensures !sent ==> loading == old(loading) && result == old(result) && requests == old(requests)
    {
      var validationErrors := Validate(record);
      errors := validationErrors;
      if validationErrors != map[] {
        return false;
      }
      loading := true;
      result := None;
      requests := requests + [record];
      sent := true;
    }

    /**
     * `handleSubmit` after the request: a prediction is stored under its
     * display label, a failure raises an alert and leaves the result alone,
     * and `loading` is cleared on both paths.
     */
    method Settle(reply: Reply)
      modifies this
      ensures !loading
      ensures reply.Prediction? ==> result == Some(DisplayLabel(reply.prediction)) && alerts == old(alerts)
      ensures reply.Failure? ==> result == old(result) && alerts == old(alerts) + 1
      ensures record == old(record) && errors == old(errors) && requests == old(requests)
    {
      match reply {
        case Prediction(p) =>
          result := Some(DisplayLabel(p));
        case Failure =>
          alerts := alerts + 1;
      }
      loading := false;
    }

    /**
     * A whole submission with no event in between. An invalid record only
     * has its errors shown; a valid one is posted, and after the reply
     * `loading` is off and the result is the stored label, or still unset
     * after a failure.
     */
    method Submit(reply: Reply)
      modifies this
      ensures record == old(record) && errors == Validate(record)
      ensures !IsFormValid(record) ==>
        loading == old(loading) && result == old(result) && requests == old(requests) && alerts == old(alerts)
      ensures IsFormValid(record) ==> !loading && requests == old(requests) + [record]
      ensures IsFormValid(record) && reply.Prediction? ==>
        result == Some(DisplayLabel(reply.prediction)) && alerts == old(alerts)
      ensures IsFormValid(record) && reply.Failure? ==> result == None && alerts == old(alerts) + 1
    {
      var sent := StartSubmit();
      if sent {
        Settle(reply);
      }
    }
  }

  /**
   * Filling in the six checked fields of the example and submitting it,
   * with the server answering `"None"`: the form is valid once the last
   * field is typed, exactly one request is sent, and the stored result is
   * `"No disorder"`, which draws the no-disorder guidance.
   */
  method ExampleSession() returns (c: Controller)
    ensures c.record == ExampleRecord && c.errors == map[]
    ensures c.requests == [ExampleRecord] && c.alerts == 0
    ensures !c.loading && c.result == Some("No disorder")
    ensures GuidanceShown(c.result, NoDisorderAdvice)
  {
    c := new Controller();
    c.OnChange(Gender, "Male");
    c.OnChange(Age, "25");
    c.OnChange(Occupation, "Engineer");
    c.OnChange(SleepDuration, "7");
    c.OnChange(BloodPressure, "120/80");
    c.OnChange(DailySteps, "5000");
    assert c.record == ExampleRecord;
    ValidExample();
    c.Submit(Prediction("None"));
  }

  /** Right after mounting, no error is shown although the form is invalid, so the button is disabled. */
  method MountedState() returns (c: Controller)
    ensures c.errors == map[] && !c.ErrorsCurrent() && !c.SubmitEnabled()
  {
    c := new Controller();
    InitialRecordInvalid();
    assert Gender in Validate(c.record);
  }
}

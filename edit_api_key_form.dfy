/** The edit form of `src/edit-api-key.tsx`: how the service dropdown and the
    custom-service field are initialised from the stored service, the
    required-field check, and the update it sends to the store. */
module EditApiKeyForm {
  import opened Wrappers
  import opened ApiKeyStorage
  import AddApiKeyForm

  /** The dropdown values of this form (plain names, unlike the add form). */
  const Services: seq<string> := ["AWS", "Azure", "Google Cloud", "GitHub", "Stripe", "SendGrid", "Twilio", "Custom"]

  datatype FormValues = FormValues(service: string, keyName: string, keyValue: string)

  /** What a submission does: a "Missing Fields" toast, or one call
      `updateApiKey(id, { service, name, key })`. */
  datatype Submission = MissingFields | UpdateCall(id: string, updates: KeyUpdates)

  /** `SERVICES.find(s => s.name === service) ? service : "Custom"`. */
  function InitialService(service: string): (r: string)
    ensures r in Services
    ensures r == service || r == "Custom"
  {
    if service in Services then service else "Custom"
  }

  /** `initialService === "Custom" ? service || "" : ""`. */
  function InitialCustomService(service: string): string {
    if InitialService(service) == "Custom" then service else ""
  }

  /** `selectedService === "Custom" ? customService : selectedService`; here
      "Custom" is one of the offered values. */
  function ServiceName(selectedService: string, customService: string): string {
    AddApiKeyForm.ChosenService(selectedService, customService, "Custom")
  }

  /** `handleSubmit`. */
  function HandleSubmit(id: string, values: FormValues, selectedService: string, customService: string): Submission {
    if values.keyName == "" || values.keyValue == "" then MissingFields
    else UpdateCall(id, KeyUpdates(Some(ServiceName(selectedService, customService)),
                                   Some(values.keyName), Some(values.keyValue), None, None, None))
  }

  /** Left untouched, the dropdown and custom field give back the stored
      service, whatever string it is. */
  lemma ServiceRoundTrip(service: string)
    ensures "Custom" in Services
    ensures ServiceName(InitialService(service), InitialCustomService(service)) == service
  {
  }

  /** An empty name or value never reaches the store; otherwise the update
      sends exactly the chosen service, the name and the value, and nothing
      for categories, notes or the last-use time. */
  lemma SubmitValidation(id: string, values: FormValues, selectedService: string, customService: string)
    ensures HandleSubmit(id, values, selectedService, customService).MissingFields?
            <==> values.keyName == "" || values.keyValue == ""
    ensures var s := HandleSubmit(id, values, selectedService, customService);
            s.UpdateCall? ==> s.id == id && s.updates.service == Some(ServiceName(selectedService, customService))
                              && s.updates.name == Some(values.keyName) && s.updates.key == Some(values.keyValue)
                              && s.updates.categories.None? && s.updates.lastUsed.None? && s.updates.notes.None?
  {
  }

  /** The update sent by the form leaves categories, notes and the last-use
      time of the record as they were. */
  lemma SubmitKeepsOtherFields(k: ApiKey, values: FormValues, selectedService: string, customService: string, now: Timestamp)
    requires HandleSubmit(k.id, values, selectedService, customService).UpdateCall?
    ensures var m := Merge(k, HandleSubmit(k.id, values, selectedService, customService).updates, now);
            m.categories == k.categories && m.notes == k.notes && m.lastUsed == k.lastUsed
            && m.id == k.id && m.createdAt == k.createdAt
  {
  }

  /** Submitting the form as it was opened rewrites the record unchanged but
      for its update time. */
  lemma UntouchedSubmitChangesOnlyUpdatedAt(k: ApiKey, now: Timestamp)
    requires k.name != "" && k.key != ""
    ensures var s := HandleSubmit(k.id, FormValues(k.service, k.name, k.key),
                                  InitialService(k.service), InitialCustomService(k.service));
            s.UpdateCall? && Merge(k, s.updates, now) == k.(updatedAt := now)
  {
    ServiceRoundTrip(k.service);
  }
}

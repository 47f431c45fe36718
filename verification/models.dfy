/** The records the pipeline passes between components. */
module Models {
  import opened Wrappers

  /** A posting extracted from a feed diff. `description` is not a field of
      the source's JobListing record but the matcher reads it; it is absent
      unless an enrichment step fills it. */
  datatype JobListing = JobListing(
    id: string,
    date_posted: int,
    url: string,
    company_name: string,
    title: string,
    locations: seq<string>,
    sponsorship: string,
    active: bool,
    source: string,
    date_updated: Option<int>,
    company_url: Option<string>,
    is_visible: Option<bool>,
    category: Option<string>,
    description: Option<string>)

  /** A subscriber's interest profile. */
  datatype UserPreferences = UserPreferences(
    subscribe_new_grad: bool,
    subscribe_internship: bool,
    receive_all: bool,
    tech_keywords: seq<string>,
    role_keywords: seq<string>,
    location_keywords: seq<string>)

  /** A subscriber as the notification pipeline sees it. */
  datatype UserContact = UserContact(
    id: string,
    email: Option<string>,
    phone: Option<string>,
    is_verified: bool,
    notify_email: bool,
    notify_sms: bool,
    prefs: UserPreferences)

  /** Python truthiness of an optional string: present and not empty. */
  predicate Present(s: Option<string>) {
    s.Some? && s.value != ""
  }
}

// RetrieveProfileResponseDto: the public view of a profile.
module ProfileResponses {
  import opened Common
  import opened Entities

  /**
   * The view of a profile. `userProfile` is the caller's link to the profile, which the response
   * of an update carries; when no profile document was written only the id is known.
   */
  datatype ProfileResponse = ProfileResponse(
    id: string,
    tag: Option<string>,
    name: Option<string>,
    updatedAt: Option<Time>,
    userProfile: Option<UserProfile>)

  /** `new RetrieveProfileResponseDto(p)`: the id as text, tag, name and last update of the profile. */
  function ResponseOf(p: Profile): (r: ProfileResponse)
    ensures r.id == IdText(p.id) && r.tag == Some(p.tag) && r.name == Some(p.name) && r.updatedAt == Some(p.updatedAt)
    ensures r.userProfile.None?
  {
    ProfileResponse(IdText(p.id), Some(p.tag), Some(p.name), Some(p.updatedAt), None)
  }

  /** The response of an update that wrote the profile: the written profile and the caller's link. */
  function UpdatedResponse(p: Profile, up: Option<UserProfile>): (r: ProfileResponse)
    ensures r.(userProfile := None) == ResponseOf(p) && r.userProfile == up
  {
    ResponseOf(p).(userProfile := up)
  }

  /** The response of an update that did not write the profile: its id and the caller's link only. */
  function IdOnlyResponse(profileId: Id, up: Option<UserProfile>): (r: ProfileResponse)
    ensures r.id == IdText(profileId) && r.tag.None? && r.name.None? && r.updatedAt.None? && r.userProfile == up
  {
    ProfileResponse(IdText(profileId), None, None, None, up)
  }
}

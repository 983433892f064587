/** Payload types shared by the landing pages. */
module Api {
  import opened Wrappers

  /** One guild summary (`GET /api/top-servers` entry or `GET /api/guild/{id}` body); rank is list position. */
  datatype Guild = Guild(id: Option<string>, name: Option<string>, icon: Option<string>, memberCount: Option<nat>)
}

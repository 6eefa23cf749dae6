/** The page header (src/components/Header.tsx): the title shown for each route. */
module Header {

  const DashboardTitle := "Panel de Prompts"
  const CreateTitle := "Crear Prompt con AI"
  const RepositoryTitle := "Mis Prompts Personales"
  const LibraryTitle := "Biblioteca de la Comunidad"
  const CommunityTitle := "Comunidad"

  /** The five routes the header names; every other path falls back to the dashboard's title. */
  const Routes: seq<string> := ["/", "/create", "/repository", "/library", "/community"]

  /** `getPageTitle`. */
  function PageTitle(path: string): (r: string)
    ensures path == "/create" ==> r == CreateTitle
    ensures path == "/repository" ==> r == RepositoryTitle
    ensures path == "/library" ==> r == LibraryTitle
    ensures path == "/community" ==> r == CommunityTitle
    ensures path !in Routes[1..] ==> r == DashboardTitle
  {
    if path == "/" then DashboardTitle
    else if path == "/create" then CreateTitle
    else if path == "/repository" then RepositoryTitle
    else if path == "/library" then LibraryTitle
    else if path == "/community" then CommunityTitle
    else DashboardTitle
  }

  /**
   * Distinct routes other than the dashboard get distinct titles, none of them the
   * dashboard's; the root and every unknown path share the dashboard's title.
   */
  lemma TitlesTellRoutesApart(p: string, q: string)
    requires p in Routes[1..] && q in Routes[1..] && p != q
    ensures PageTitle(p) != PageTitle(q)
    ensures PageTitle(p) != DashboardTitle
  {
  }
}

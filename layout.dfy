/** The breadcrumb label of src/_root/RootLayout.tsx: the page name shown for
    the current pathname. */
module Layout {

  const InitialLabel: string := "Dashboard"

  /** The five labels the switch can produce. */
  predicate IsLabel(s: string) {
    s in {"Dashboard", "Perfil", "Configurações", "Treino", "Tarefas"}
  }

  /** The `switch (location.pathname)` in the layout's effect. */
  function PageLabel(path: string): (page: string)
    ensures IsLabel(page)
    ensures page == "Perfil" <==> path == "/profile"
    ensures page == "Configurações" <==> path == "/settings"
    ensures page == "Treino" <==> path == "/workout"
    ensures page == "Tarefas" <==> path == "/tasks"
    ensures page == "Dashboard" <==> path !in {"/profile", "/settings", "/workout", "/tasks"}
    ensures path in {"/health", "/projects", "/bank", "/"} ==> page == "Dashboard"
  {
    match path
    case "/profile" => "Perfil"
    case "/settings" => "Configurações"
    case "/workout" => "Treino"
    case "/tasks" => "Tarefas"
    case _ => "Dashboard"
  }

  /** The label state: it starts as "Dashboard" and each route change stores
      the switch's result, so it always holds one of the five labels. */
  class Breadcrumb {
    var actualPage: string

    ghost predicate Valid()
      reads this
    {
      IsLabel(actualPage)
    }

    constructor ()
      ensures actualPage == InitialLabel && Valid()
    {
      actualPage := InitialLabel;
    }

    method RouteChanged(pathname: string)
      modifies this
      ensures actualPage == PageLabel(pathname) && Valid()
    {
      actualPage := PageLabel(pathname);
    }
  }
}

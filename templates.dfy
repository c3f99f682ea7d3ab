/**
  The six template texts `create` writes, verbatim. The model never looks
  inside them; only which text goes to which file matters.
 */
module Templates {
  import opened Paths
  import opened FileSystem
  import opened Scaffold

  /** Template text for the service locator, written to app/locator.dart. */
  const Locator: string :=
    "import 'package:get_it/get_it.dart';\n"
    + "import 'package:injectable/injectable.dart';\n"
    + "    \n"
    + "import 'locator.iconfig.dart';\n"
    + "    \n"
    + "final locator = GetIt.instance;\n"
    + "    \n"
    + "@injectableInit\n"
    + "void setupLocator() => $initGetIt(locator);"

  /** Template text for the route table, written to app/router.dart. */
  const Router: string :=
    "import 'package:auto_route/auto_route_annotations.dart';\n"
    + "import '../screens/home.dart';\n"
    + "  \n"
    + "@MaterialAutoRouter()\n"
    + "class $Router {\n"
    + "  @initial\n"
    + "  Home homeRoute;\n"
    + "}"

  /** Template text for the third-party services module, written to app/thid_party_app.dart. */
  const ThirdParty: string :=
    "import 'package:injectable/injectable.dart';\n"
    + "import 'package:stacked_services/stacked_services.dart';\n"
    + "  \n"
    + "@module\n"
    + "abstract class ThirdPartyServicesModule {\n"
    + "  @lazySingleton\n"
    + "  NavigationService get navigationService;\n"
    + "  @lazySingleton\n"
    + "  DialogService get dialogService;\n"
    + "  @lazySingleton\n"
    + "  SnackbarService get snackBarService;\n"
    + "}"

  /** Template text for the home screen, written to screens/home.dart. */
  const Home: string :=
    "import 'package:flutter/material.dart';\n"
    + "\n"
    + "class Home extends StatefulWidget {\n"
    + "  @override\n"
    + "  _HomeState createState() => _HomeState();\n"
    + "}\n"
    + "  \n"
    + "class _HomeState extends State<Home> {\n"
    + "  int _counter = 0;\n"
    + "\n"
    + "  void _incrementCounter() {\n"
    + "    setState(() {\n"
    + "      _counter++;\n"
    + "    });\n"
    + "  }\n"
    + "  \n"
    + "  @override\n"
    + "  Widget build(BuildContext context) {\n"
    + "    return Scaffold(\n"
    + "      appBar: AppBar(\n"
    + "        title: Text('Welcome'),\n"
    + "      ),\n"
    + "      body: Center(\n"
    + "        child: Column(\n"
    + "          mainAxisAlignment: MainAxisAlignment.center,\n"
    + "          children: <Widget>[\n"
    + "            Text(\n"
    + "              'You have pushed the button this many times:',\n"
    + "            ),\n"
    + "            Text(\n"
    + "              '$_counter',\n"
    + "              style: Theme.of(context).textTheme.headline4,\n"
    + "            ),\n"
    + "          ],\n"
    + "        ),\n"
    + "      ),\n"
    + "      floatingActionButton: FloatingActionButton(\n"
    + "        onPressed: _incrementCounter,\n"
    + "        tooltip: 'Increment',\n"
    + "        child: Icon(Icons.add),\n"
    + "      ),\n"
    + "    );\n"
    + "  }\n"
    + "}"

  /** Template text for the application entry point, written to main.dart. */
  const MainDart: string :=
    "import 'package:flutter/material.dart';\n"
    + "\n"
    + "void main() {\n"
    + "  setupLocator();\n"
    + "  runApp(MyApp());\n"
    + "}\n"
    + "\n"
    + "class MyApp extends StatelessWidget {\n"
    + "  @override\n"
    + "  Widget build(BuildContext context) {\n"
    + "    return MaterialApp(\n"
    + "      title: 'Flutter Demo',\n"
    + "      theme: ThemeData(\n"
    + "        primarySwatch: Colors.blue,\n"
    + "        visualDensity: VisualDensity.adaptivePlatformDensity,\n"
    + "      ),\n"
    + "      navigatorKey: locator<NavigationService>().navigatorKey,\n"
    + "      initialRoute: Routes.homeRoute,\n"
    + "      onGenerateRoute: Router().onGenerateRoute,\n"
    + "    );\n"
    + "  }\n"
    + "}"

  /** Template text for the commented dependency list, written to depedency_need_to_remove.dart. */
  const Dependency: string :=
    "/*\n"
    + "dependencies:\n"
    + "  flutter:\n"
    + "    sdk: flutter\n"
    + "\n"
    + "  cupertino_icons: ^0.1.3\n"
    + "  stacked: \n"
    + "  auto_route:\n"
    + "  stacked_services: \n"
    + "  get_it:\n"
    + "  injectable:\n"
    + "  path_provider: \n"
    + "\n"
    + "dev_dependencies:\n"
    + "  flutter_test:\n"
    + "    sdk: flutter\n"
    + "  build_runner:\n"
    + "  auto_route_generator:\n"
    + "  injectable_generator:\n"
    + "*/\n"
    + "    "

  /** The texts the generator's template fields hold. */
  const DevindoTexts: Texts :=
    Texts(home := Home, locator := Locator, router := Router, third := ThirdParty,
          depedency := Dependency, main := MainDart)

  /** Each file of the scaffold holds the template of the field `create` writes to it. */
  lemma TemplatesWrittenInPlace(root: Path)
    ensures var e := Entries(root, DevindoTexts);
            && e[root + ["screens", "home.dart"]] == File(Home)
            && e[root + ["app", "locator.dart"]] == File(Locator)
            && e[root + ["app", "router.dart"]] == File(Router)
            && e[root + ["app", "thid_party_app.dart"]] == File(ThirdParty)
            && e[root + ["depedency_need_to_remove.dart"]] == File(Dependency)
            && e[root + ["main.dart"]] == File(MainDart)
  {
    FileContents(root, DevindoTexts);
  }
}
